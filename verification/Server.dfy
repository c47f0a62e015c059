/**
 The server's two registries, connections and sessions, and the leases that tie them together. A
 connection records a session exactly when the session's lease names the connection, so none of the
 look-ups below can miss; and a lease that has ended never becomes valid again.

 What the world decides, such as the time or whether a process starts, is the `World` of a request.
 */
module Server {
  import opened Basics
  import opened Frames
  import S = ServerSession
  import A = Agents
  import R = SessionRuntime

  datatype ConnectionRole = Interactive | Control | Probe

  /** A connection has no role before the handshake. */
  datatype Connection = Connection(role: Option<ConnectionRole>, attached: Option<S.SessionId>, process: Option<u32>)

  datatype ServerState = ServerState(
    connections: map<S.ConnectionId, Connection>,
    sessions: map<S.SessionId, R.RuntimeState>,
    nextConnection: u64,
    nextSession: u64,
    nextToken: u64,
    stopping: bool)

  datatype World = World(
    now: u64, starts: bool, dies: bool, sends: bool, reported: Option<R.ConversationId>, generation: u64,
    failing: set<AgentId>, failingBack: set<AgentId>)

  datatype Request =
    | CreateSession(rows: u16, cols: u16)
    | AttachSession(session: S.SessionId, rows: u16, cols: u16, takeover: bool)
    | DetachSession(token: S.LeaseToken)
    | SpawnAgent(token: S.LeaseToken, kind: AgentKind, launch: R.Directory)
    | CloseAgent(token: S.LeaseToken, agent: AgentId)
    | ArchiveAgent(token: S.LeaseToken, agent: AgentId)
    | ResumeArchived(token: S.LeaseToken, conversation: R.ConversationId)
    | StopAttachedSession(token: S.LeaseToken)
    | ResizeSession(token: S.LeaseToken, rows: u16, cols: u16)
    | SelectAgent(token: S.LeaseToken, agent: AgentId)
    | MarkSeen(token: S.LeaseToken, agent: AgentId, seen: u64)
    | Input(token: S.LeaseToken, agent: AgentId, typed: Option<R.InputDraft>)
    | Look(token: S.LeaseToken, agent: AgentId)
    | ReadUsage
    | ServerStatus
    | ListSessions
    | GetSession(session: S.SessionId)
    | StopSession(session: S.SessionId, confirmed: bool)
    | StopServer(confirmed: bool)

  datatype Response = Done | Leased(session: S.SessionId, lease: S.LeaseToken)

  datatype ServerError =
    | InvalidRequest | NoLease | SessionNotFound | AgentMissing | AgentExited | NotSent | IdsExhausted | ResizeFailed
    | InSession(session: S.SessionError) | InRuntime(runtime: R.RuntimeError)

  /** What a request comes to: its answer, and the connections to be closed once told. */
  datatype Outcome = Outcome(result: Result<Response, ServerError>, disconnect: seq<S.ConnectionId>)

  function Refused(error: ServerError): Outcome {
    Outcome(Err(error), [])
  }

  function Answer(error: Option<ServerError>): Outcome {
    match error
    case None => Outcome(Ok(Done), [])
    case Some(reason) => Refused(reason)
  }

  // ---------------------------------------------------------------------------------------------
  // Agreement
  // ---------------------------------------------------------------------------------------------

  predicate Records(s: ServerState, c: S.ConnectionId, x: S.SessionId) {
    c in s.connections && s.connections[c].attached == Some(x)
  }

  predicate Holds(s: ServerState, c: S.ConnectionId, x: S.SessionId) {
    x in s.sessions && S.Holder(s.sessions[x].state) == Some(c)
  }

  /** Connection `c` records session `x` exactly when `x` exists and its lease names `c`. */
  ghost predicate Agreement(s: ServerState) {
    forall c, x :: Records(s, c, x) <==> Holds(s, c, x)
  }

  /** Sessions in the registry run, and identifiers not yet handed out are unused. */
  ghost predicate Registered(s: ServerState) {
    && (forall x | x in s.sessions ::
       !s.sessions[x].state.stopped && s.sessions[x].state.id == x && (x < s.nextSession || s.nextSession == MAX_U64))
    && (forall c | c in s.connections :: c < s.nextConnection)
  }

  ghost predicate Valid(s: ServerState) {
    Agreement(s) && Registered(s)
  }

  // ---------------------------------------------------------------------------------------------
  // Requests
  // ---------------------------------------------------------------------------------------------

  predicate IsControl(request: Request) {
    request.ServerStatus? || request.ListSessions? || request.GetSession? || request.StopSession? || request.StopServer?
  }

  predicate Permitted(role: ConnectionRole, request: Request) {
    match role
    case Interactive => !IsControl(request)
    case Control => IsControl(request)
    case Probe => request.ServerStatus?
  }

  /** The connection records a session that is not there. */
  predicate Lost(s: ServerState, c: S.ConnectionId)
    requires c in s.connections
  {
    var attached := s.connections[c].attached;
    attached.Some? && Records(s, c, attached.value) && attached.value !in s.sessions
  }

  /** The session that the connection's lease is for; looking it up must not miss. */
  function AttachedSession(s: ServerState, c: S.ConnectionId, token: S.LeaseToken)
      : (r: Result<S.SessionId, ServerError>)
    requires c in s.connections && !Lost(s, c)
    ensures r.Ok? ==> Records(s, c, r.value) && r.value in s.sessions && S.Opens(s.sessions[r.value].state, token)
  {
    if s.connections[c].attached.None? then Err(NoLease)
    else
      var x := s.connections[c].attached.value;
      var lease := S.ValidateLease(s.sessions[x].state, token);
      if lease.Err? then Err(InSession(lease.error)) else Ok(x)
  }

  function WithRuntime(s: ServerState, x: S.SessionId, r: R.RuntimeState): ServerState {
    s.(sessions := s.sessions[x := r])
  }

  function WithAttached(s: ServerState, c: S.ConnectionId, attached: Option<S.SessionId>): ServerState {
    if c !in s.connections then s
    else s.(connections := s.connections[c := s.connections[c].(attached := attached)])
  }

  function Spent(s: ServerState): ServerState {
    s.(nextToken := if s.nextToken < MAX_U64 then s.nextToken + 1 else MAX_U64)
  }

  function EmptyRuntime(state: S.SessionState): R.RuntimeState {
    R.RuntimeState(state, A.ManagerState(map[], [], Some(1), A.PtySize(state.rows, state.cols)), map[], map[], [])
  }

  function Create(s: ServerState, c: S.ConnectionId, rows: u16, cols: u16, w: World): (ServerState, Outcome)
    requires c in s.connections
  {
    if s.connections[c].attached.Some? then (s, Refused(InvalidRequest))
    else if s.nextSession == MAX_U64 then (s, Refused(IdsExhausted))
    else
      var x := s.nextSession;
      var numbered := s.(nextSession := x + 1);
      var state := S.New(x, rows, cols, w.now);
      if state.Err? then (numbered, Refused(InSession(state.error)))
      else
        var held := S.Attach(state.value, c, s.connections[c].process, s.nextToken, false, w.now).0;
        (WithAttached(WithRuntime(Spent(numbered), x, EmptyRuntime(held)), c, Some(x)),
         Outcome(Ok(Leased(x, s.nextToken)), []))
  }

  /** Everything that can refuse an attachment comes before anything is committed. */
  function Attach(s: ServerState, c: S.ConnectionId, x: S.SessionId, rows: u16, cols: u16, takeover: bool, w: World)
    : (ServerState, Outcome)
    requires c in s.connections
  {
    if s.connections[c].attached.Some? then (s, Refused(InvalidRequest))
    else if x !in s.sessions then (s, Refused(SessionNotFound))
    else
      var r := s.sessions[x];
      var revoked := S.ValidateAttach(r.state, takeover);
      if revoked.Err? then (s, Refused(InSession(revoked.error)))
      else if S.ValidateDimensions(rows, cols).Err? then (s, Refused(InSession(S.InvalidDimensions)))
      else
        var (agents, resized) := A.Resize(r.agents, rows, cols, w.failing, w.failingBack);
        if !resized then (WithRuntime(s, x, r.(agents := agents)), Refused(ResizeFailed))
        else
          var held := S.Attach(r.state, c, s.connections[c].process, s.nextToken, takeover, w.now).0;
          var sized := S.Touched(S.Resize(held, rows, cols, w.now).0, w.now);
          var attached := WithAttached(WithRuntime(Spent(s), x, r.(state := sized, agents := agents)), c, Some(x));
          if revoked.value.None? then (attached, Outcome(Ok(Leased(x, s.nextToken)), []))
          else
            (WithAttached(attached, revoked.value.value, None),
              Outcome(Ok(Leased(x, s.nextToken)), [revoked.value.value]))
  }

  /** Nothing is left of a session without agents or archived conversations once nobody holds it. */
  predicate Abandoned(r: R.RuntimeState) {
    r.agents.sessions == map[] && r.archived == []
  }

  function Settle(s: ServerState, x: S.SessionId, r: R.RuntimeState): ServerState {
    if Abandoned(r) then s.(sessions := s.sessions - {x}) else WithRuntime(s, x, r)
  }

  function Detach(s: ServerState, c: S.ConnectionId, token: S.LeaseToken, w: World): (ServerState, Outcome)
    requires c in s.connections && !Lost(s, c)
  {
    var x := AttachedSession(s, c, token);
    if x.Err? then (s, Refused(x.error))
    else
      var r := s.sessions[x.value];
      var detached := r.(state := S.Detach(r.state, token, w.now).0);
      (WithAttached(Settle(s, x.value, detached), c, None), Outcome(Ok(Done), []))
  }

  function StopRuntime(s: ServerState, x: S.SessionId, requester: S.ConnectionId): (ServerState, Outcome) {
    if x !in s.sessions then (s, Refused(SessionNotFound))
    else
      var holder := S.Holder(s.sessions[x].state);
      var removed := s.(sessions := s.sessions - {x});
      if holder.None? then (removed, Outcome(Ok(Done), []))
      else
        (WithAttached(removed, holder.value, None),
         Outcome(Ok(Done), if holder.value == requester then [] else [holder.value]))
  }

  /** What was typed, keys and pastes only, is kept as a draft; a name once given may change but does not go away. */
  function Drafted(draft: R.InputDraft, typed: R.InputDraft): R.InputDraft {
    typed.(title := if typed.title.Some? then typed.title else draft.title)
  }

  /** Input goes to a running agent only, and counts as activity once it has been handed over. */
  function SendInput(r: R.RuntimeState, agent: AgentId, typed: Option<R.InputDraft>, w: World)
      : (R.RuntimeState, Option<ServerError>)
  {
    if agent !in r.agents.sessions then (r, Some(AgentMissing))
    else if r.agents.sessions[agent].exited then (r, Some(AgentExited))
    else if !w.sends then (r, Some(NotSent))
    else
      (r.(state := S.Touched(r.state, w.now),
          drafts := if typed.Some? && agent in r.drafts then r.drafts[agent := Drafted(r.drafts[agent], typed.value)]
            else r.drafts),
       None)
  }

  /** What a request does to the session its lease is for. */
  function SessionRequest(r: R.RuntimeState, request: Request, w: World): (R.RuntimeState, Option<ServerError>) {
    match request
    case SpawnAgent(_, kind, launch) =>
      var (next, id) := R.Spawn(r, kind, launch, w.reported, w.starts, w.now);
      (next, if id.Ok? then None else Some(InRuntime(id.error)))
    case CloseAgent(_, agent) =>
      if agent !in r.agents.sessions then (r, Some(AgentMissing))
      else
        var (next, ok) := R.Close(r, agent, w.dies, w.now);
        (next, if ok then None else Some(InRuntime(R.NotStopped)))
    case ArchiveAgent(_, agent) =>
      var (next, record) := R.Archive(r, agent, w.dies, w.now);
      (next, if record.Ok? then None else Some(InRuntime(record.error)))
    case ResumeArchived(_, conversation) =>
      var (next, id) := R.ResumeArchived(r, conversation, w.reported, w.starts, w.now);
      (next, if id.Ok? then None else Some(InRuntime(id.error)))
    case ResizeSession(_, rows, cols) =>
      var (state, sized) := S.Resize(r.state, rows, cols, w.now);
      if sized.Err? then (r, Some(InSession(sized.error)))
      else
        var (agents, ok) := A.Resize(r.agents, rows, cols, w.failing, w.failingBack);
        (r.(state := state, agents := agents), if ok then None else Some(ResizeFailed))
    case SelectAgent(_, agent) =>
      var (state, selected) := S.SelectAgent(r.state, agent, w.now);
      (r.(state := state), if selected.Ok? then None else Some(InSession(selected.error)))
    case MarkSeen(_, agent, seen) =>
      if agent !in r.agents.sessions then (r, Some(AgentMissing))
      else
        var (state, marked) := S.MarkSeen(r.state, agent, seen, w.generation);
        (r.(state := state), if marked.Ok? then None else Some(InSession(marked.error)))
    case Input(_, agent, typed) => SendInput(r, agent, typed, w)
    case Look(_, agent) => (r, if agent in r.agents.sessions then None else Some(AgentMissing))
    case _ => (r, None)
  }

  /** Requests about one session, made under its lease, that leave the lease alone. */
  predicate IsLeased(request: Request) {
    || request.SpawnAgent? || request.CloseAgent? || request.ArchiveAgent? || request.ResumeArchived?
    || request.ResizeSession? || request.SelectAgent? || request.MarkSeen? || request.Input? || request.Look?
  }

  /** The requests that look up the session their connection records. */
  predicate NeedsSession(request: Request) {
    IsLeased(request) || request.DetachSession? || request.StopAttachedSession?
  }

  /** Handling the request would look up a session that is not there. */
  predicate Misses(s: ServerState, c: S.ConnectionId, request: Request) {
    && c in s.connections && s.connections[c].role.Some? && Permitted(s.connections[c].role.value, request)
    && NeedsSession(request) && Lost(s, c)
  }

  function WithinSession(s: ServerState, c: S.ConnectionId, request: Request, w: World): (ServerState, Outcome)
    requires c in s.connections && !Lost(s, c) && IsLeased(request)
  {
    var x := AttachedSession(s, c, request.token);
    if x.Err? then (s, Refused(x.error))
    else
      var (r, error) := SessionRequest(s.sessions[x.value], request, w);
      (WithRuntime(s, x.value, r), Answer(error))
  }

  function Apply(s: ServerState, c: S.ConnectionId, request: Request, w: World): (ServerState, Outcome)
    requires c in s.connections && s.connections[c].role.Some? && !Misses(s, c, request)
  {
    if !Permitted(s.connections[c].role.value, request) then (s, Refused(InvalidRequest))
    else
      match request
      case CreateSession(rows, cols) => Create(s, c, rows, cols, w)
      case AttachSession(x, rows, cols, takeover) => Attach(s, c, x, rows, cols, takeover, w)
      case DetachSession(token) => Detach(s, c, token, w)
      case StopAttachedSession(token) =>
        var x := AttachedSession(s, c, token);
        if x.Err? then (s, Refused(x.error)) else StopRuntime(s, x.value, c)
      case StopSession(x, confirmed) => if !confirmed then (s, Refused(InvalidRequest)) else StopRuntime(s, x, c)
      case StopServer(confirmed) =>
        if !confirmed then (s, Refused(InvalidRequest))
        else (s.(sessions := map[], stopping := true), Outcome(Ok(Done), []))
      case GetSession(x) => (s, if x in s.sessions then Outcome(Ok(Done), []) else Refused(SessionNotFound))
      case ReadUsage => (s, Outcome(Ok(Done), []))
      case ServerStatus => (s, Outcome(Ok(Done), []))
      case ListSessions => (s, Outcome(Ok(Done), []))
      case _ => WithinSession(s, c, request, w)
  }

  // ---------------------------------------------------------------------------------------------
  // Connections
  // ---------------------------------------------------------------------------------------------

  /** A connection is gone: its lease ends, and with it a session nothing is left of. */
  function RemoveConnection(s: ServerState, c: S.ConnectionId, now: u64): ServerState {
    if c !in s.connections then s
    else
      var removed := s.(connections := s.connections - {c});
      var attached := s.connections[c].attached;
      if attached.None? || attached.value !in s.sessions then removed
      else
        var r := s.sessions[attached.value];
        var (state, held) := S.Disconnect(r.state, c, now);
        if !held then removed else Settle(removed, attached.value, r.(state := state))
  }

  function RemoveAll(s: ServerState, connections: seq<S.ConnectionId>, now: u64): ServerState
    decreases |connections|
  {
    if |connections| == 0 then s else RemoveAll(RemoveConnection(s, connections[0], now), connections[1..], now)
  }

  function Accept(s: ServerState): ServerState {
    if s.nextConnection == MAX_U64 then s
    else
      s.(connections := s.connections[s.nextConnection := Connection(None, None, None)],
         nextConnection := s.nextConnection + 1)
  }

  datatype Message =
    | Hello(role: ConnectionRole, compatible: bool, process: Option<u32>)
    | RequestMessage(request: Request)
    | Malformed

  /** The first message must be a compatible greeting; after it only requests are acted on. */
  function HandleMessage(s: ServerState, c: S.ConnectionId, m: Message, w: World): ServerState
    requires m.RequestMessage? ==> !Misses(s, c, m.request)
  {
    if c !in s.connections then s
    else if s.connections[c].role.None? then
      if m.Hello? && m.compatible then
        s.(connections := s.connections[c := s.connections[c].(role := Some(m.role), process := m.process)])
      else RemoveConnection(s, c, w.now)
    else if !m.RequestMessage? then s
    else
      var (next, outcome) := Apply(s, c, m.request, w);
      RemoveAll(next, outcome.disconnect, w.now)
  }

  // ---------------------------------------------------------------------------------------------
  // The server
  // ---------------------------------------------------------------------------------------------

  lemma UpdateTwice<K, V>(m: map<K, V>, k: K, a: V, b: V)
    ensures m[k := a][k := b] == m[k := b] && m[k := a] - {k} == m - {k}
  {
  }

  /** The maps own their connections and sessions, so these are values here. */
  class Coordinator {
    var connections: map<S.ConnectionId, Connection>
    var sessions: map<S.SessionId, R.RuntimeState>
    var nextConnection: u64
    var nextSession: u64
    var nextToken: u64
    var stopping: bool

    function State(): ServerState
      reads this
    {
      ServerState(connections, sessions, nextConnection, nextSession, nextToken, stopping)
    }

    /** A server starts with the sessions restored from the store, and nobody connected. */
    constructor (sessions: map<S.SessionId, R.RuntimeState>, nextSession: u64)
      ensures State() == ServerState(map[], sessions, 1, nextSession, 1, false)
    {
      this.connections, this.sessions, this.nextSession := map[], sessions, nextSession;
      nextConnection, nextToken, stopping := 1, 1, false;
    }

    method AcceptConnection() returns (accepted: bool)
      modifies this
      ensures State() == Accept(old(State())) && (accepted <==> old(nextConnection) < MAX_U64)
    {
      if nextConnection == MAX_U64 {
        return false;
      }
      connections := connections[nextConnection := Connection(None, None, None)];
      nextConnection := nextConnection + 1;
      accepted := true;
    }

    method HandleEnvelope(c: S.ConnectionId, m: Message, w: World)
      requires m.RequestMessage? ==> !Misses(State(), c, m.request)
      modifies this
      ensures State() == HandleMessage(old(State()), c, m, w)
    {
      if c !in connections {
        return;
      }
      if connections[c].role.None? {
        if m.Hello? && m.compatible {
          connections := connections[c := connections[c].(role := Some(m.role), process := m.process)];
        } else {
          Remove(c, w.now);
        }
        return;
      }
      if !m.RequestMessage? {
        return;
      }
      var outcome := ApplyRequest(c, m.request, w);
      ghost var applied := State();
      assert outcome.disconnect[0..] == outcome.disconnect;
      for i := 0 to |outcome.disconnect|
        invariant RemoveAll(State(), outcome.disconnect[i..], w.now) == RemoveAll(applied, outcome.disconnect, w.now)
      {
        assert outcome.disconnect[i..][1..] == outcome.disconnect[i + 1..];
        Remove(outcome.disconnect[i], w.now);
      }
    }

    method LeaseToken() returns (token: S.LeaseToken)
      modifies this`nextToken
      ensures token == old(nextToken) && State() == Spent(old(State()))
    {
      token := nextToken;
      if nextToken < MAX_U64 {
        nextToken := nextToken + 1;
      }
    }

    method CreateSession(c: S.ConnectionId, rows: u16, cols: u16, w: World) returns (outcome: Outcome)
      requires c in connections
      modifies this
      ensures (State(), outcome) == Create(old(State()), c, rows, cols, w)
    {
      if connections[c].attached.Some? {
        return Refused(InvalidRequest);
      }
      var x := nextSession;
      if nextSession == MAX_U64 {
        return Refused(IdsExhausted);
      }
      nextSession := nextSession + 1;
      var state := S.New(x, rows, cols, w.now);
      if state.Err? {
        return Refused(InSession(state.error));
      }
      var token := LeaseToken();
      var (held, revoked) := S.Attach(state.value, c, connections[c].process, token, false, w.now);
      sessions := sessions[x := EmptyRuntime(held)];
      connections := connections[c := connections[c].(attached := Some(x))];
      outcome := Outcome(Ok(Leased(x, token)), []);
    }

    method AttachToSession(c: S.ConnectionId, x: S.SessionId, rows: u16, cols: u16, takeover: bool, w: World)
      returns (outcome: Outcome)
      requires c in connections
      modifies this
      ensures (State(), outcome) == Attach(old(State()), c, x, rows, cols, takeover, w)
    {
      if connections[c].attached.Some? {
        return Refused(InvalidRequest);
      }
      if x !in sessions {
        return Refused(SessionNotFound);
      }
      var valid := S.ValidateAttach(sessions[x].state, takeover);
      if valid.Err? {
        return Refused(InSession(valid.error));
      }
      if S.ValidateDimensions(rows, cols).Err? {
        return Refused(InSession(S.InvalidDimensions));
      }
      var (agents, resized) := A.Resize(sessions[x].agents, rows, cols, w.failing, w.failingBack);
      sessions := sessions[x := sessions[x].(agents := agents)];
      if !resized {
        return Refused(ResizeFailed);
      }
      var token := LeaseToken();
      var (held, revoked) := S.Attach(sessions[x].state, c, connections[c].process, token, takeover, w.now);
      var sized := S.Resize(held, rows, cols, w.now).0;
      UpdateTwice(old(sessions), x, sessions[x], sessions[x].(state := S.Touched(sized, w.now)));
      sessions := sessions[x := sessions[x].(state := S.Touched(sized, w.now))];
      connections := connections[c := connections[c].(attached := Some(x))];
      var disconnect := [];
      if revoked.value.Some? {
        var was := revoked.value.value;
        if was in connections {
          connections := connections[was := connections[was].(attached := None)];
        }
        disconnect := [was];
      }
      outcome := Outcome(Ok(Leased(x, token)), disconnect);
    }

    method DetachFromSession(c: S.ConnectionId, token: S.LeaseToken, w: World) returns (outcome: Outcome)
      requires c in connections && !Lost(State(), c)
      modifies this
      ensures (State(), outcome) == Detach(old(State()), c, token, w)
    {
      var found := AttachedSession(State(), c, token);
      if found.Err? {
        return Refused(found.error);
      }
      var x := found.value;
      var state := S.Detach(sessions[x].state, token, w.now).0;
      UpdateTwice(sessions, x, sessions[x].(state := state), sessions[x]);
      sessions := sessions[x := sessions[x].(state := state)];
      if sessions[x].agents.sessions == map[] && sessions[x].archived == [] {
        sessions := sessions - {x};
      }
      connections := connections[c := connections[c].(attached := None)];
      outcome := Outcome(Ok(Done), []);
    }

    method StopSessionRuntime(x: S.SessionId, requester: S.ConnectionId) returns (outcome: Outcome)
      modifies this
      ensures (State(), outcome) == StopRuntime(old(State()), x, requester)
    {
      if x !in sessions {
        return Refused(SessionNotFound);
      }
      var holder := S.Holder(sessions[x].state);
      sessions := sessions - {x};
      var disconnect := [];
      if holder.Some? {
        if holder.value in connections {
          connections := connections[holder.value := connections[holder.value].(attached := None)];
        }
        if holder.value != requester {
          disconnect := [holder.value];
        }
      }
      outcome := Outcome(Ok(Done), disconnect);
    }

    method Remove(c: S.ConnectionId, now: u64)
      modifies this
      ensures State() == RemoveConnection(old(State()), c, now)
    {
      if c !in connections {
        return;
      }
      var attached := connections[c].attached;
      connections := connections - {c};
      if attached.Some? && attached.value in sessions {
        var (state, held) := S.Disconnect(sessions[attached.value].state, c, now);
        if held {
          sessions := sessions[attached.value := sessions[attached.value].(state := state)];
          if Abandoned(sessions[attached.value]) {
            sessions := sessions - {attached.value};
          }
        }
      }
    }

    /** While the registries agree none of the look-ups here can miss, and they go on agreeing. */
    method ApplyRequest(c: S.ConnectionId, request: Request, w: World) returns (outcome: Outcome)
      requires c in connections && connections[c].role.Some? && !Misses(State(), c, request)
      modifies this
      ensures (State(), outcome) == Apply(old(State()), c, request, w)
      ensures old(Valid(State())) && !old(stopping) && !stopping ==> Valid(State())
    {
      if Valid(State()) && !stopping {
        ApplyKeepsValid(State(), c, request, w);
      }
      if !Permitted(connections[c].role.value, request) {
        return Refused(InvalidRequest);
      }
      match request {
        case CreateSession(rows, cols) => outcome := CreateSession(c, rows, cols, w);
        case AttachSession(x, rows, cols, takeover) => outcome := AttachToSession(c, x, rows, cols, takeover, w);
        case DetachSession(token) => outcome := DetachFromSession(c, token, w);
        case StopAttachedSession(token) =>
          var x := AttachedSession(State(), c, token);
          if x.Err? {
            return Refused(x.error);
          }
          outcome := StopSessionRuntime(x.value, c);
        case StopSession(x, confirmed) =>
          if !confirmed {
            return Refused(InvalidRequest);
          }
          outcome := StopSessionRuntime(x, c);
        case StopServer(confirmed) =>
          if !confirmed {
            return Refused(InvalidRequest);
          }
          sessions := map[];
          stopping := true;
          outcome := Outcome(Ok(Done), []);
        case GetSession(x) =>
          outcome := if x in sessions then Outcome(Ok(Done), []) else Refused(SessionNotFound);
        case ReadUsage => outcome := Outcome(Ok(Done), []);
        case ServerStatus => outcome := Outcome(Ok(Done), []);
        case ListSessions => outcome := Outcome(Ok(Done), []);
        case _ =>
          var x := AttachedSession(State(), c, request.token);
          if x.Err? {
            return Refused(x.error);
          }
          var (r, error) := SessionRequest(sessions[x.value], request, w);
          sessions := sessions[x.value := r];
          outcome := Answer(error);
      }
    }
  }

  // ---------------------------------------------------------------------------------------------
  // Agreement is kept
  // ---------------------------------------------------------------------------------------------

  /** The part of a session that leases are about. */
  predicate SameLease(a: S.SessionState, b: S.SessionState) {
    && a.id == b.id && a.stopped == b.stopped && S.Holder(a) == S.Holder(b)
    && (a.attachment.Some? ==> a.attachment.value.token == b.attachment.value.token)
  }

  lemma SessionRequestKeepsLease(r: R.RuntimeState, request: Request, w: World)
    ensures SameLease(SessionRequest(r, request, w).0.state, r.state)
  {
  }

  lemma RuntimeKeepsValid(s: ServerState, x: S.SessionId, r: R.RuntimeState)
    requires Valid(s) && x in s.sessions && SameLease(r.state, s.sessions[x].state)
    ensures Valid(WithRuntime(s, x, r))
  {
    var next := WithRuntime(s, x, r);
    forall c, y
      ensures Records(next, c, y) <==> Holds(next, c, y)
    {
      assert Records(next, c, y) <==> Records(s, c, y);
      assert Holds(next, c, y) <==> Holds(s, c, y);
    }
  }

  /** A lease is given to a connection that had none, and taken from its holder. */
  lemma LeaseKeepsValid(
    s: ServerState, next: ServerState, c: S.ConnectionId, x: S.SessionId, was: Option<S.ConnectionId>)
    requires Valid(s) && c in s.connections && s.connections[c].attached.None?
    requires was == if x in s.sessions then S.Holder(s.sessions[x].state) else None
    requires x in next.sessions && S.Holder(next.sessions[x].state) == Some(c)
    requires next.sessions == s.sessions[x := next.sessions[x]]
    requires forall d :: d in next.connections <==> d in s.connections
    requires forall d | d in s.connections :: next.connections[d].attached ==
               if d == c then Some(x) else if Some(d) == was then None else s.connections[d].attached
    ensures Agreement(next)
  {
    forall d, y
      ensures Records(next, d, y) <==> Holds(next, d, y)
    {
      assert Records(s, d, y) <==> Holds(s, d, y);
      assert Records(s, d, x) <==> Holds(s, d, x);
      assert !Records(s, c, y);
    }
  }

  /** A lease ends: the session keeps going without a holder, or is gone. */
  lemma ReleaseKeepsValid(s: ServerState, next: ServerState, c: S.ConnectionId, x: S.SessionId)
    requires Valid(s) && Holds(s, c, x)
    requires x in next.sessions ==> S.Holder(next.sessions[x].state) == None
    requires forall y | y != x ::
             (y in next.sessions <==> y in s.sessions) && (y in s.sessions ==> next.sessions[y] == s.sessions[y])
    requires forall d | d != c ::
               && (d in next.connections <==> d in s.connections)
               && (d in s.connections ==> next.connections[d] == s.connections[d])
    requires c in next.connections ==> next.connections[c].attached.None?
    ensures Agreement(next)
  {
    forall d, y
      ensures Records(next, d, y) <==> Holds(next, d, y)
    {
      assert Records(s, d, y) <==> Holds(s, d, y);
      assert Records(s, c, y) <==> Holds(s, c, y);
      assert Records(s, c, x);
      assert Records(s, d, x) <==> Holds(s, d, x);
    }
  }

  lemma SameRecordsKeepAgreement(s: ServerState, next: ServerState)
    requires Agreement(s) && next.sessions == s.sessions
    requires forall c :: c in next.connections && next.connections[c].attached.Some?
               <==> c in s.connections && s.connections[c].attached.Some?
    requires forall c | c in s.connections && c in next.connections ::
             next.connections[c].attached == s.connections[c].attached
    ensures Agreement(next)
  {
    forall d, y
      ensures Records(next, d, y) <==> Holds(next, d, y)
    {
      assert Records(s, d, y) <==> Holds(s, d, y);
    }
  }

  lemma CreateKeepsValid(s: ServerState, c: S.ConnectionId, rows: u16, cols: u16, w: World)
    requires Valid(s) && c in s.connections
    ensures Valid(Create(s, c, rows, cols, w).0)
  {
    var (next, outcome) := Create(s, c, rows, cols, w);
    if outcome.result.Ok? {
      LeaseKeepsValid(s, next, c, s.nextSession, None);
    } else {
      SameRecordsKeepAgreement(s, next);
    }
  }

  lemma AttachKeepsValid(
    s: ServerState, c: S.ConnectionId, x: S.SessionId, rows: u16, cols: u16, takeover: bool, w: World)
    requires Valid(s) && c in s.connections
    ensures Valid(Attach(s, c, x, rows, cols, takeover, w).0)
  {
    var (next, outcome) := Attach(s, c, x, rows, cols, takeover, w);
    if outcome.result.Ok? {
      var holder := S.Holder(s.sessions[x].state);
      if holder.Some? {
        assert Holds(s, holder.value, x) && Records(s, holder.value, x);
      }
      LeaseKeepsValid(s, next, c, x, holder);
    } else if next != s {
      RuntimeKeepsValid(s, x, next.sessions[x]);
    }
  }

  lemma DetachKeepsValid(s: ServerState, c: S.ConnectionId, token: S.LeaseToken, w: World)
    requires Valid(s) && c in s.connections
    ensures Valid(Detach(s, c, token, w).0)
  {
    var (next, outcome) := Detach(s, c, token, w);
    if outcome.result.Ok? {
      ReleaseKeepsValid(s, next, c, AttachedSession(s, c, token).value);
    }
  }

  lemma StopKeepsValid(s: ServerState, x: S.SessionId, requester: S.ConnectionId)
    requires Valid(s)
    ensures Valid(StopRuntime(s, x, requester).0)
  {
    var next := StopRuntime(s, x, requester).0;
    if x in s.sessions {
      var holder := S.Holder(s.sessions[x].state);
      if holder.Some? {
        assert Holds(s, holder.value, x) && Records(s, holder.value, x);
        ReleaseKeepsValid(s, next, holder.value, x);
      } else {
        forall d, y
          ensures Records(next, d, y) <==> Holds(next, d, y)
        {
          assert Records(s, d, y) <==> Holds(s, d, y);
        }
      }
    }
  }

  lemma RemoveKeepsValid(s: ServerState, c: S.ConnectionId, now: u64)
    requires Valid(s)
    ensures Valid(RemoveConnection(s, c, now))
  {
    if c in s.connections {
      var next := RemoveConnection(s, c, now);
      if s.connections[c].attached.Some? {
        var x := s.connections[c].attached.value;
        assert Records(s, c, x);
        ReleaseKeepsValid(s, next, c, x);
      } else {
        forall d, y
          ensures Records(next, d, y) <==> Holds(next, d, y)
        {
          assert Records(s, d, y) <==> Holds(s, d, y);
          assert Records(s, c, y) <==> Holds(s, c, y);
        }
      }
    }
  }

  lemma {:induction false} RemoveAllKeepsValid(s: ServerState, connections: seq<S.ConnectionId>, now: u64)
    requires Valid(s)
    ensures Valid(RemoveAll(s, connections, now))
    decreases |connections|
  {
    if |connections| > 0 {
      RemoveKeepsValid(s, connections[0], now);
      RemoveAllKeepsValid(RemoveConnection(s, connections[0], now), connections[1..], now);
    }
  }

  /** Every request but a confirmed stop of the server keeps the registries in agreement. */
  lemma ApplyKeepsValid(s: ServerState, c: S.ConnectionId, request: Request, w: World)
    requires Valid(s) && !s.stopping && c in s.connections && s.connections[c].role.Some?
    ensures !Apply(s, c, request, w).0.stopping ==> Valid(Apply(s, c, request, w).0)
  {
    if Permitted(s.connections[c].role.value, request) {
      match request {
        case CreateSession(rows, cols) => CreateKeepsValid(s, c, rows, cols, w);
        case AttachSession(x, rows, cols, takeover) => AttachKeepsValid(s, c, x, rows, cols, takeover, w);
        case DetachSession(token) => DetachKeepsValid(s, c, token, w);
        case StopAttachedSession(token) =>
          var x := AttachedSession(s, c, token);
          if x.Ok? {
            StopKeepsValid(s, x.value, c);
          }
        case StopSession(x, confirmed) => StopKeepsValid(s, x, c);
        case StopServer(_) =>
        case GetSession(_) =>
        case ReadUsage =>
        case ServerStatus =>
        case ListSessions =>
        case _ =>
          var x := AttachedSession(s, c, request.token);
          if x.Ok? {
            SessionRequestKeepsLease(s.sessions[x.value], request, w);
            RuntimeKeepsValid(s, x.value, SessionRequest(s.sessions[x.value], request, w).0);
          }
      }
    }
  }

  // ---------------------------------------------------------------------------------------------
  // Every run
  // ---------------------------------------------------------------------------------------------

  datatype Action =
    | Accepted
    | Received(c: S.ConnectionId, m: Message, w: World)
    | Disconnected(c: S.ConnectionId, now: u64)
    | Polled(x: S.SessionId, exits: set<AgentId>, reports: seq<R.Report>)

  /** One step of the server; one that is stopping takes none, nor would one whose registries disagreed. */
  ghost function Next(s: ServerState, a: Action): ServerState {
    if s.stopping || !Valid(s) then s
    else
      match a
      case Accepted => Accept(s)
      case Received(c, m, w) => HandleMessage(s, c, m, w)
      case Disconnected(c, now) => RemoveConnection(s, c, now)
      case Polled(x, exits, reports) =>
        if x !in s.sessions then s else WithRuntime(s, x, R.Poll(s.sessions[x], exits, reports).0)
  }

  lemma AcceptKeepsValid(s: ServerState)
    requires Valid(s)
    ensures Valid(Accept(s))
  {
    SameRecordsKeepAgreement(s, Accept(s));
  }

  lemma GreetingKeepsValid(s: ServerState, c: S.ConnectionId, connection: Connection)
    requires Valid(s) && c in s.connections && connection.attached == s.connections[c].attached
    ensures Valid(s.(connections := s.connections[c := connection]))
  {
    SameRecordsKeepAgreement(s, s.(connections := s.connections[c := connection]));
  }

  lemma MessageKeepsValid(s: ServerState, c: S.ConnectionId, m: Message, w: World)
    requires Valid(s) && !s.stopping
    ensures !HandleMessage(s, c, m, w).stopping ==> Valid(HandleMessage(s, c, m, w))
  {
    if c in s.connections {
      if s.connections[c].role.None? {
        if m.Hello? && m.compatible {
          GreetingKeepsValid(s, c, s.connections[c].(role := Some(m.role), process := m.process));
        } else {
          RemoveKeepsValid(s, c, w.now);
        }
      } else if m.RequestMessage? {
        ApplyKeepsValid(s, c, m.request, w);
        var (next, outcome) := Apply(s, c, m.request, w);
        RemoveAllKeepsStopping(next, outcome.disconnect, w.now);
        if !next.stopping {
          RemoveAllKeepsValid(next, outcome.disconnect, w.now);
        }
      }
    }
  }

  lemma {:induction false} RemoveAllKeepsStopping(s: ServerState, connections: seq<S.ConnectionId>, now: u64)
    ensures RemoveAll(s, connections, now).stopping == s.stopping
    ensures RemoveAll(s, connections, now).nextToken == s.nextToken
    decreases |connections|
  {
    if |connections| > 0 {
      RemoveAllKeepsStopping(RemoveConnection(s, connections[0], now), connections[1..], now);
    }
  }

  lemma PollKeepsLease(r: R.RuntimeState, exits: set<AgentId>, reports: seq<R.Report>)
    ensures SameLease(R.Poll(r, exits, reports).0.state, r.state)
  {
    PollEachKeepsLease(r.(agents := A.Poll(r.agents, exits)), reports, r.state.lastActivity);
  }

  lemma {:induction false} PollEachKeepsLease(r: R.RuntimeState, reports: seq<R.Report>, now: u64)
    ensures SameLease(R.PollEach(r, reports, now).0.state, r.state)
    decreases |reports|
  {
    if |reports| > 0 {
      PollOneKeepsLease(r, reports[0], now);
      PollEachKeepsLease(R.PollOne(r, reports[0], now).0, reports[1..], now);
    }
  }

  lemma PollOneKeepsLease(r: R.RuntimeState, report: R.Report, now: u64)
    ensures SameLease(R.PollOne(r, report, now).0.state, r.state)
  {
  }

  lemma StepKeepsValid(s: ServerState, a: Action)
    requires Valid(s) && !s.stopping
    ensures !Next(s, a).stopping ==> Valid(Next(s, a))
  {
    match a {
      case Accepted => AcceptKeepsValid(s);
      case Received(c, m, w) => MessageKeepsValid(s, c, m, w);
      case Disconnected(c, now) => RemoveKeepsValid(s, c, now);
      case Polled(x, exits, reports) =>
        if x in s.sessions {
          PollKeepsLease(s.sessions[x], exits, reports);
          RuntimeKeepsValid(s, x, R.Poll(s.sessions[x], exits, reports).0);
        }
    }
  }

  /** A server as it starts: no connections, and the sessions restored from the store, held by nobody. */
  ghost predicate Initial(s: ServerState) {
    && s.connections == map[] && s.nextConnection == 1 && s.nextToken == 1 && !s.stopping
    && forall x | x in s.sessions ::
         && s.sessions[x].state.attachment.None? && !s.sessions[x].state.stopped
         && s.sessions[x].state.id == x && (x < s.nextSession || s.nextSession == MAX_U64)
  }

  ghost predicate IsRun(states: seq<ServerState>, actions: seq<Action>) {
    && |states| == |actions| + 1 && Initial(states[0])
    && forall i | 0 <= i < |actions| :: states[i + 1] == Next(states[i], actions[i])
  }

  lemma {:induction false} RunKeepsValid(states: seq<ServerState>, actions: seq<Action>, i: nat)
    requires IsRun(states, actions) && i < |states|
    ensures !states[i].stopping ==> Valid(states[i])
  {
    if i > 0 {
      RunKeepsValid(states, actions, i - 1);
      if !states[i - 1].stopping {
        StepKeepsValid(states[i - 1], actions[i - 1]);
      }
    }
  }

  /**
   Main result: in every state of every run, until the server is told to stop, a connection records a
   session exactly when that session exists and its lease names the connection. So a session has one
   holder at most, and a connection one session.
   */
  lemma RegistriesAgree(states: seq<ServerState>, actions: seq<Action>, i: nat, c: S.ConnectionId, x: S.SessionId)
    requires IsRun(states, actions) && i < |states| && !states[i].stopping
    ensures Records(states[i], c, x) <==> Holds(states[i], c, x)
    ensures forall d | Holds(states[i], c, x) && Holds(states[i], d, x) :: c == d
    ensures forall y | Holds(states[i], c, x) && Holds(states[i], c, y) :: x == y
  {
    RunKeepsValid(states, actions, i);
    forall y | Holds(states[i], c, x) && Holds(states[i], c, y)
      ensures x == y
    {
      assert Records(states[i], c, x) && Records(states[i], c, y);
    }
  }

  /**
   Stopping the server clears the sessions but not the connections' records: agreement survives it only if
   nobody held a lease.
   */
  lemma StopServerAgreesExactly(s: ServerState, c: S.ConnectionId, w: World)
    requires Valid(s) && c in s.connections && s.connections[c].role == Some(Control)
    ensures Agreement(Apply(s, c, StopServer(true), w).0) <==>
            forall d | d in s.connections :: s.connections[d].attached.None?
  {
    var next := Apply(s, c, StopServer(true), w).0;
    if Agreement(next) {
      forall d | d in s.connections
        ensures s.connections[d].attached.None?
      {
        assert forall x :: !Holds(next, d, x);
        assert s.connections[d].attached.Some? ==> Records(next, d, s.connections[d].attached.value);
      }
    }
  }

  /**
   Input received before the server was told to stop is still handled after it. No look-up misses while
   the registries agree; after the stop it is exactly the requests of those who held a lease that do.
   */
  lemma DrainedMissesExactly(s: ServerState, c: S.ConnectionId, w: World, d: S.ConnectionId, request: Request)
    requires Valid(s) && c in s.connections && s.connections[c].role == Some(Control)
    ensures !Misses(s, d, request)
    ensures Misses(Apply(s, c, StopServer(true), w).0, d, request) <==>
            && (exists x :: Holds(s, d, x)) && NeedsSession(request)
            && s.connections[d].role.Some? && Permitted(s.connections[d].role.value, request)
  {
    if d in s.connections && s.connections[d].attached.Some? {
      assert Records(s, d, s.connections[d].attached.value);
    }
    if x :| Holds(s, d, x) {
      assert Records(s, d, x);
    }
  }

  // ---------------------------------------------------------------------------------------------
  // Leases
  // ---------------------------------------------------------------------------------------------

  predicate HasToken(s: ServerState, x: S.SessionId, token: S.LeaseToken) {
    x in s.sessions && s.sessions[x].state.attachment.Some? && s.sessions[x].state.attachment.value.token == token
  }

  /** Tokens in use were handed out, and no two sessions have the same one, unless the counter has run out. */
  ghost predicate TokensOk(s: ServerState) {
    && (forall x, t: S.LeaseToken | HasToken(s, x, t) :: t < s.nextToken || s.nextToken == MAX_U64)
    && (forall x, y, t | HasToken(s, x, t) && HasToken(s, y, t) :: x == y || t == MAX_U64)
  }

  /** Where the tokens of a step come from: they were there before, or are the one token that the step hands out. */
  ghost predicate TokensFrom(s: ServerState, next: ServerState) {
    && s.nextToken <= next.nextToken
    && (forall x, t: S.LeaseToken | HasToken(next, x, t) ::
       HasToken(s, x, t) || (t == s.nextToken && (t < next.nextToken || t == MAX_U64)))
    && (forall x, y | HasToken(next, x, s.nextToken) && HasToken(next, y, s.nextToken)
                      && !HasToken(s, x, s.nextToken) && !HasToken(s, y, s.nextToken) :: x == y)
  }

  lemma FromKeepsTokens(s: ServerState, next: ServerState)
    requires TokensOk(s) && TokensFrom(s, next)
    ensures TokensOk(next)
  {
  }

  lemma SameTokens(s: ServerState, next: ServerState)
    requires s.nextToken <= next.nextToken && forall x, t: S.LeaseToken | HasToken(next, x, t) :: HasToken(s, x, t)
    ensures TokensFrom(s, next)
  {
  }

  lemma RemoveTokens(s: ServerState, c: S.ConnectionId, now: u64)
    ensures TokensFrom(s, RemoveConnection(s, c, now)) && RemoveConnection(s, c, now).nextToken == s.nextToken
    ensures forall x, t: S.LeaseToken | HasToken(RemoveConnection(s, c, now), x, t) :: HasToken(s, x, t)
  {
    SameTokens(s, RemoveConnection(s, c, now));
  }

  lemma {:induction false} RemoveAllTokens(s: ServerState, connections: seq<S.ConnectionId>, now: u64)
    ensures forall x, t: S.LeaseToken | HasToken(RemoveAll(s, connections, now), x, t) :: HasToken(s, x, t)
    decreases |connections|
  {
    if |connections| > 0 {
      RemoveTokens(s, connections[0], now);
      RemoveAllTokens(RemoveConnection(s, connections[0], now), connections[1..], now);
    }
  }

  lemma AttachTokens(s: ServerState, c: S.ConnectionId, x: S.SessionId, rows: u16, cols: u16, takeover: bool, w: World)
    requires c in s.connections
    ensures TokensFrom(s, Attach(s, c, x, rows, cols, takeover, w).0)
  {
    var (next, outcome) := Attach(s, c, x, rows, cols, takeover, w);
    if outcome.result.Err? {
      SameTokens(s, next);
    } else {
      assert next.sessions[x].state.attachment.value.token == s.nextToken;
      assert forall y, t: S.LeaseToken | y != x && HasToken(next, y, t) :: HasToken(s, y, t);
    }
  }

  lemma CreateTokens(s: ServerState, c: S.ConnectionId, rows: u16, cols: u16, w: World)
    requires c in s.connections
    ensures TokensFrom(s, Create(s, c, rows, cols, w).0)
  {
  }

  lemma WithinTokens(s: ServerState, c: S.ConnectionId, request: Request, w: World)
    requires Agreement(s) && c in s.connections && IsLeased(request)
    ensures TokensFrom(s, WithinSession(s, c, request, w).0)
  {
    var x := AttachedSession(s, c, request.token);
    if x.Ok? {
      SessionRequestKeepsLease(s.sessions[x.value], request, w);
    }
    SameTokens(s, WithinSession(s, c, request, w).0);
  }

  /** Requests that end leases, if they do anything to them. */
  lemma EndingTokens(s: ServerState, c: S.ConnectionId, request: Request, w: World)
    requires Valid(s) && c in s.connections && s.connections[c].role.Some?
    requires !IsLeased(request) && !request.AttachSession? && !request.CreateSession?
    ensures TokensFrom(s, Apply(s, c, request, w).0)
  {
    SameTokens(s, Apply(s, c, request, w).0);
  }

  lemma ApplyTokens(s: ServerState, c: S.ConnectionId, request: Request, w: World)
    requires Valid(s) && c in s.connections && s.connections[c].role.Some?
    ensures TokensFrom(s, Apply(s, c, request, w).0)
  {
    if !Permitted(s.connections[c].role.value, request) {
      SameTokens(s, s);
    } else if request.AttachSession? {
      AttachTokens(s, c, request.session, request.rows, request.cols, request.takeover, w);
    } else if request.CreateSession? {
      CreateTokens(s, c, request.rows, request.cols, w);
    } else if IsLeased(request) {
      WithinTokens(s, c, request, w);
    } else {
      EndingTokens(s, c, request, w);
    }
  }

  lemma StepTokens(s: ServerState, a: Action)
    requires !s.stopping ==> Valid(s)
    ensures TokensFrom(s, Next(s, a))
  {
    if !s.stopping {
      match a {
        case Accepted => SameTokens(s, Next(s, a));
        case Received(c, m, w) =>
          if c in s.connections && s.connections[c].role.Some? && m.RequestMessage? {
            ApplyTokens(s, c, m.request, w);
            var (next, outcome) := Apply(s, c, m.request, w);
            RemoveAllTokens(next, outcome.disconnect, w.now);
            RemoveAllKeepsStopping(next, outcome.disconnect, w.now);
          } else if c in s.connections && s.connections[c].role.None? && !(m.Hello? && m.compatible) {
            RemoveTokens(s, c, w.now);
          } else {
            SameTokens(s, Next(s, a));
          }
        case Disconnected(c, now) => RemoveTokens(s, c, now);
        case Polled(x, exits, reports) =>
          if x in s.sessions {
            PollKeepsLease(s.sessions[x], exits, reports);
          }
          SameTokens(s, Next(s, a));
      }
    }
  }

  lemma {:induction false} RunKeepsTokens(states: seq<ServerState>, actions: seq<Action>, i: nat)
    requires IsRun(states, actions) && i < |states|
    ensures TokensOk(states[i])
  {
    if i > 0 {
      RunKeepsTokens(states, actions, i - 1);
      RunKeepsValid(states, actions, i - 1);
      StepTokens(states[i - 1], actions[i - 1]);
      FromKeepsTokens(states[i - 1], states[i]);
    }
  }

  lemma {:induction false} DeadTokenStaysDead(
    states: seq<ServerState>, actions: seq<Action>, i: nat, j: nat, token: S.LeaseToken)
    requires IsRun(states, actions) && i <= j < |states|
    requires token < states[i].nextToken && forall x :: !HasToken(states[i], x, token)
    ensures token < states[j].nextToken && forall x :: !HasToken(states[j], x, token)
  {
    if i < j {
      DeadTokenStaysDead(states, actions, i, j - 1, token);
      RunKeepsValid(states, actions, j - 1);
      StepTokens(states[j - 1], actions[j - 1]);
    }
  }

  /**
   Main result: when a lease ends, by takeover, detachment, disconnection or a stop, its token opens no
   session in any later state. The token must not be the very last one, which a run-out counter repeats.
   */
  lemma LeaseEndsForGood(
    states: seq<ServerState>, actions: seq<Action>, i: nat, j: nat, x: S.SessionId, token: S.LeaseToken)
    requires IsRun(states, actions) && i < j < |states| && token < MAX_U64
    requires HasToken(states[i], x, token) && !HasToken(states[i + 1], x, token)
    ensures forall y | y in states[j].sessions :: !S.Opens(states[j].sessions[y].state, token)
  {
    RunKeepsTokens(states, actions, i);
    RunKeepsTokens(states, actions, i + 1);
    RunKeepsValid(states, actions, i);
    StepTokens(states[i], actions[i]);
    var after := states[i + 1];
    forall y
      ensures !HasToken(after, y, token)
    {
      assert HasToken(states[i], x, token) && HasToken(states[i], y, token) ==> x == y;
    }
    DeadTokenStaysDead(states, actions, i + 1, j, token);
    forall y | y in states[j].sessions
      ensures !S.Opens(states[j].sessions[y].state, token)
    {
      assert !HasToken(states[j], y, token);
    }
  }

  /** Once the counter has run out, a takeover hands the revoked holder's token to the new one. */
  lemma LastTokenIsRepeated(s: ServerState, c: S.ConnectionId, x: S.SessionId, w: World)
    requires Valid(s) && c in s.connections && s.connections[c] == Connection(Some(Interactive), None, None)
    requires s.nextToken == MAX_U64 && HasToken(s, x, MAX_U64) && s.sessions[x].agents.size == A.Size(24, 80)
    ensures var (next, outcome) := Apply(s, c, AttachSession(x, 24, 80, true), w);
            && outcome.result == Ok(Leased(x, MAX_U64)) && |outcome.disconnect| == 1
            && S.Opens(next.sessions[x].state, MAX_U64)
  {
  }

  /**
   When an attachment succeeds, and what it brings about: the session is held by this connection under a
   new token and has the new size, a revoked holder records nothing any more and is disconnected, and no
   other session or connection is touched.
   */
  lemma AttachExactly(s: ServerState, c: S.ConnectionId, x: S.SessionId, rows: u16, cols: u16, takeover: bool, w: World)
    requires Valid(s) && c in s.connections
    ensures var (next, outcome) := Attach(s, c, x, rows, cols, takeover, w);
            && (outcome.result.Ok? <==>
                && s.connections[c].attached.None? && x in s.sessions
                && (S.Holder(s.sessions[x].state).Some? ==> takeover) && rows > 0 && cols > 0
                && A.Resize(s.sessions[x].agents, rows, cols, w.failing, w.failingBack).1)
            && (outcome.result.Ok? ==>
                && Holds(next, c, x) && Records(next, c, x) && S.Opens(next.sessions[x].state, s.nextToken)
                && next.sessions[x].state.attachment ==
                   Some(S.AttachmentLease(c, s.connections[c].process, s.nextToken, w.now, w.now))
                && next.sessions[x].state.rows == rows && next.sessions[x].state.cols == cols
                && next.sessions[x].agents.size == A.Size(rows, cols)
                && (forall d :: d in outcome.disconnect <==> Holds(s, d, x))
                && (forall d | d in s.connections && d != c :: d in next.connections
                      && next.connections[d] ==
                         if Holds(s, d, x) then s.connections[d].(attached := None) else s.connections[d])
                && (forall y | y != x :: (y in next.sessions <==> y in s.sessions)
                      && (y in s.sessions ==> next.sessions[y] == s.sessions[y])))
  {
    assert Records(s, c, x) <==> Holds(s, c, x);
    if x in s.sessions && S.Holder(s.sessions[x].state).Some? {
      var d := S.Holder(s.sessions[x].state).value;
      assert Holds(s, d, x) && Records(s, d, x);
    }
  }

  /**
   When a session is created, and what it is then: numbered next, empty, of the size asked for, and held by
   this connection under a new token. Nobody else is touched.
   */
  lemma CreateExactly(s: ServerState, c: S.ConnectionId, rows: u16, cols: u16, w: World)
    requires Valid(s) && c in s.connections && s.connections[c].role == Some(Interactive)
    ensures var (next, outcome) := Apply(s, c, CreateSession(rows, cols), w);
            var x := s.nextSession;
            && (outcome.result.Ok? <==>
                s.connections[c].attached.None? && s.nextSession < MAX_U64 && rows > 0 && cols > 0)
            && (outcome.result.Ok? ==>
                && x in next.sessions && x !in s.sessions && next.nextSession == x + 1
                && Holds(next, c, x) && Records(next, c, x) && S.Opens(next.sessions[x].state, s.nextToken)
                && next.sessions[x].state.attachment ==
                   Some(S.AttachmentLease(c, s.connections[c].process, s.nextToken, w.now, w.now))
                && next.sessions[x].state.rows == rows && next.sessions[x].state.cols == cols
                && next.sessions[x].agents.size == A.Size(rows, cols)
                && next.sessions[x].agents.order == [] && next.sessions[x].archived == []
                && (forall y | y != x :: SameSession(s, next, y))
                && (forall d | d != c :: SameConnection(s, next, d)))
            && (outcome.result.Err? ==> next.sessions == s.sessions && next.connections == s.connections)
  {
  }

  predicate SameSession(s: ServerState, next: ServerState, x: S.SessionId) {
    (x in next.sessions <==> x in s.sessions) && (x in s.sessions ==> next.sessions[x] == s.sessions[x])
  }

  predicate SameConnection(s: ServerState, next: ServerState, c: S.ConnectionId) {
    (c in next.connections <==> c in s.connections) && (c in s.connections ==> next.connections[c] == s.connections[c])
  }

  /** The request stops this session, and the connection may make it. */
  predicate StopsSession(s: ServerState, c: S.ConnectionId, request: Request, x: S.SessionId) {
    && c in s.connections && x in s.sessions
    && match request
       case StopSession(y, confirmed) => y == x && confirmed && s.connections[c].role == Some(Control)
       case StopAttachedSession(token) =>
         s.connections[c].role == Some(Interactive) && Holds(s, c, x) && S.Opens(s.sessions[x].state, token)
       case _ => false
  }

  lemma RemoveOne(s: ServerState, d: S.ConnectionId, now: u64)
    ensures RemoveAll(s, [d], now) == RemoveConnection(s, d, now)
  {
    assert RemoveAll(s, [d], now) == RemoveAll(RemoveConnection(s, d, now), [d][1..], now);
  }

  /** A connection that holds nothing leaves all sessions and other connections alone when it goes. */
  lemma FreeConnectionLeaves(s: ServerState, d: S.ConnectionId, now: u64)
    requires d in s.connections && s.connections[d].attached.None?
    ensures RemoveConnection(s, d, now) == s.(connections := s.connections - {d})
  {
  }

  /**
   A session that is stopped is gone. If another connection held it, that one is closed; the one that asked
   stays, holding nothing of it. Every other session and connection is as before.
   */
  lemma StoppingExactly(s: ServerState, c: S.ConnectionId, request: Request, w: World, x: S.SessionId)
    requires Valid(s) && StopsSession(s, c, request, x)
    ensures !Misses(s, c, request)
    ensures var next := HandleMessage(s, c, RequestMessage(request), w);
            && x !in next.sessions && (forall y | y != x :: SameSession(s, next, y))
            && c in next.connections
            && next.connections[c] == (if Holds(s, c, x) then s.connections[c].(attached := None) else s.connections[c])
            && (forall d | d != c && Holds(s, d, x) :: d !in next.connections)
            && (forall d | d != c && !Holds(s, d, x) :: SameConnection(s, next, d))
  {
    assert Records(s, c, x) <==> Holds(s, c, x);
    AgreementFindsSessions(s, c);
    var holder := S.Holder(s.sessions[x].state);
    if holder.Some? {
      assert Holds(s, holder.value, x) && Records(s, holder.value, x);
      var stopped := StopRuntime(s, x, c).0;
      if holder.value != c {
        FreeConnectionLeaves(stopped, holder.value, w.now);
        RemoveOne(stopped, holder.value, w.now);
      }
    }
  }

  lemma AgreementFindsSessions(s: ServerState, c: S.ConnectionId)
    requires Agreement(s) && c in s.connections
    ensures !Lost(s, c)
    ensures forall x: S.SessionId | Records(s, c, x) :: Holds(s, c, x)
  {
    if s.connections[c].attached.Some? {
      assert Records(s, c, s.connections[c].attached.value);
    }
  }

  /** The sessions a message may change: the sender's own, one it attaches to, and those a control client stops. */
  predicate MayChange(s: ServerState, c: S.ConnectionId, m: Message, y: S.SessionId) {
    && c in s.connections
    && (|| Records(s, c, y)
        || (m.RequestMessage? && s.connections[c].role == Some(Interactive) &&
            m.request.AttachSession? && m.request.session == y)
        || (m.RequestMessage? && s.connections[c].role == Some(Control) &&
            (m.request == StopSession(y, true) || m.request == StopServer(true))))
  }

  /**
   Whatever a connection sends, it changes no session but those, and of its own sessions only as the holder;
   a session that was not there can only be one it has created.
   */
  lemma OthersStayAsTheyAre(s: ServerState, c: S.ConnectionId, m: Message, w: World, y: S.SessionId)
    requires Valid(s) && !MayChange(s, c, m, y) && (m.RequestMessage? ==> !Misses(s, c, m.request))
    ensures var next := HandleMessage(s, c, m, w);
            || SameSession(s, next, y)
            || (y == s.nextSession && m.RequestMessage? && m.request.CreateSession? && Holds(next, c, y))
  {
    if c in s.connections && s.connections[c].role.Some? && m.RequestMessage? {
      RequestLeavesOthers(s, c, m.request, w, y);
      var (next, outcome) := Apply(s, c, m.request, w);
      RemovedHoldNothing(s, c, m.request, w);
      FreeLeave(next, outcome.disconnect, w.now);
    } else if c in s.connections {
      AgreementFindsSessions(s, c);
    }
  }

  lemma RequestLeavesOthers(s: ServerState, c: S.ConnectionId, request: Request, w: World, y: S.SessionId)
    requires Valid(s) && c in s.connections && s.connections[c].role.Some? && !Misses(s, c, request)
    requires !MayChange(s, c, RequestMessage(request), y)
    ensures var next := Apply(s, c, request, w).0;
            || SameSession(s, next, y)
            || (y == s.nextSession && request.CreateSession? && Holds(next, c, y))
  {
    if Permitted(s.connections[c].role.value, request) {
      if IsLeased(request) {
        LeasedLeavesOthers(s, c, request, w, y);
      } else if request.AttachSession? {
        AttachLeavesOthers(s, c, request, w, y);
      } else if !request.CreateSession? {
        OthersLeaveOthers(s, c, request, w, y);
      }
    }
  }

  lemma LeasedLeavesOthers(s: ServerState, c: S.ConnectionId, request: Request, w: World, y: S.SessionId)
    requires c in s.connections && !Lost(s, c) && IsLeased(request) && !Records(s, c, y)
    ensures SameSession(s, WithinSession(s, c, request, w).0, y)
  {
  }

  lemma AttachLeavesOthers(s: ServerState, c: S.ConnectionId, request: Request, w: World, y: S.SessionId)
    requires c in s.connections && request.AttachSession? && request.session != y
    ensures SameSession(
              s, Attach(s, c, request.session, request.rows, request.cols, request.takeover, w).0, y)
  {
  }

  lemma OthersLeaveOthers(s: ServerState, c: S.ConnectionId, request: Request, w: World, y: S.SessionId)
    requires c in s.connections && s.connections[c].role.Some? && !Misses(s, c, request)
    requires Permitted(s.connections[c].role.value, request) && !MayChange(s, c, RequestMessage(request), y)
    requires !IsLeased(request) && !request.AttachSession? && !request.CreateSession?
    ensures SameSession(s, Apply(s, c, request, w).0, y)
  {
  }

  /** Who is closed with a request holds nothing any more. */
  lemma RemovedHoldNothing(s: ServerState, c: S.ConnectionId, request: Request, w: World)
    requires Valid(s) && c in s.connections && s.connections[c].role.Some? && !Misses(s, c, request)
    ensures var (next, outcome) := Apply(s, c, request, w);
            |outcome.disconnect| <= 1 && forall d | d in outcome.disconnect && d in next.connections ::
              next.connections[d].attached.None?
  {
  }

  lemma FreeLeave(s: ServerState, connections: seq<S.ConnectionId>, now: u64)
    requires |connections| <= 1
    requires forall d | d in connections && d in s.connections :: s.connections[d].attached.None?
    ensures RemoveAll(s, connections, now).sessions == s.sessions
  {
    if |connections| == 1 {
      assert connections == [connections[0]];
      RemoveOne(s, connections[0], now);
    }
  }

  /** A session whose holder leaves goes on without one exactly if it has an agent or an archived conversation. */
  lemma LeavingExactly(s: ServerState, c: S.ConnectionId, x: S.SessionId, now: u64)
    requires Valid(s) && Holds(s, c, x)
    ensures var next := RemoveConnection(s, c, now);
            && c !in next.connections
            && (x in next.sessions <==> s.sessions[x].agents.sessions != map[] || s.sessions[x].archived != [])
            && (x in next.sessions ==>
                  S.Holder(next.sessions[x].state) == None && next.sessions[x].agents == s.sessions[x].agents
                  && next.sessions[x].archived == s.sessions[x].archived)
            && forall y | y != x ::
               (y in next.sessions <==> y in s.sessions) && (y in s.sessions ==> next.sessions[y] == s.sessions[y])
  {
    assert Records(s, c, x);
  }

  /** A refused attachment changes neither a lease nor the size of a session. */
  lemma RefusedAttachChangesNothing(
    s: ServerState, c: S.ConnectionId, x: S.SessionId, rows: u16, cols: u16, takeover: bool, w: World)
    requires Valid(s) && c in s.connections && s.connections[c].role.Some?
    requires Apply(s, c, AttachSession(x, rows, cols, takeover), w).1.result.Err?
    ensures var next := Apply(s, c, AttachSession(x, rows, cols, takeover), w).0;
            && next.connections == s.connections && next.nextToken == s.nextToken
            && next.sessions.Keys == s.sessions.Keys
            && forall y | y in s.sessions :: next.sessions[y].state == s.sessions[y].state
  {
  }

  /**
   A refused resize leaves the recorded size alone exactly when the size was refused before any terminal was,
   or was recorded already.
   */
  lemma RefusedResizeExactly(s: ServerState, c: S.ConnectionId, token: S.LeaseToken, rows: u16, cols: u16, w: World)
    requires Valid(s) && c in s.connections && s.connections[c].role == Some(Interactive)
    requires AttachedSession(s, c, token).Ok? && Apply(s, c, ResizeSession(token, rows, cols), w).1.result.Err?
    ensures var x := AttachedSession(s, c, token).value;
            var before, after :=
              s.sessions[x].state, Apply(s, c, ResizeSession(token, rows, cols), w).0.sessions[x].state;
            (after.rows == before.rows && after.cols == before.cols) <==>
            rows == 0 || cols == 0 || (rows == before.rows && cols == before.cols)
  {
  }

  // ---------------------------------------------------------------------------------------------
  // Greetings, leaving and input
  // ---------------------------------------------------------------------------------------------

  /** A compatible greeting gives a connection the role it asks for; anything else before that closes it. */
  lemma GreetingExactly(s: ServerState, c: S.ConnectionId, m: Message, w: World)
    requires Valid(s) && c in s.connections && s.connections[c].role.None?
    requires m.RequestMessage? ==> !Misses(s, c, m.request)
    ensures var next := HandleMessage(s, c, m, w);
            && (forall d | d != c :: SameConnection(s, next, d))
            && (c in next.connections <==> m.Hello? && m.compatible)
            && (c in next.connections ==>
                  next.sessions == s.sessions
                  && next.connections[c] == s.connections[c].(role := Some(m.role), process := m.process))
  {
  }

  /**
   A holder that detaches keeps its connection; the session goes on without a holder if it has an agent or an
   archived conversation, and is gone otherwise.
   */
  lemma DetachingExactly(s: ServerState, c: S.ConnectionId, x: S.SessionId, token: S.LeaseToken, w: World)
    requires Valid(s) && Holds(s, c, x) && S.Opens(s.sessions[x].state, token)
    requires c in s.connections && s.connections[c].role == Some(Interactive)
    ensures !Misses(s, c, DetachSession(token))
    ensures var next := HandleMessage(s, c, RequestMessage(DetachSession(token)), w);
            && c in next.connections && next.connections[c] == s.connections[c].(attached := None)
            && (x in next.sessions <==> s.sessions[x].agents.sessions != map[] || s.sessions[x].archived != [])
            && (x in next.sessions ==> S.Holder(next.sessions[x].state) == None)
            && (x in next.sessions ==>
                  next.sessions[x].agents == s.sessions[x].agents
                  && next.sessions[x].archived == s.sessions[x].archived)
            && (forall y | y != x :: SameSession(s, next, y)) && (forall d | d != c :: SameConnection(s, next, d))
  {
    assert Records(s, c, x);
  }

  /** Input is accepted exactly for a running agent that takes it, changes no other draft, and takes no name away. */
  lemma InputExactly(r: R.RuntimeState, token: S.LeaseToken, agent: AgentId, typed: R.InputDraft, w: World)
    requires r.drafts.Keys == r.agents.sessions.Keys
    ensures var (next, error) := SessionRequest(r, Input(token, agent, Some(typed)), w);
            && (error == None <==> agent in r.agents.sessions && !r.agents.sessions[agent].exited && w.sends)
            && (error.Some? ==> next == r)
            && (error == None ==>
                  && next.drafts.Keys == r.drafts.Keys && next.state.lastActivity == w.now
                  && next.drafts[agent].quitRequested == typed.quitRequested
                  && next.drafts[agent].title == (if typed.title.Some? then typed.title else r.drafts[agent].title)
                  && forall other | other in r.drafts && other != agent :: next.drafts[other] == r.drafts[other])
            && next.previous == r.previous && next.agents == r.agents && next.archived == r.archived
  {
  }

  /** A resize is accepted exactly if no dimension is zero and no terminal refuses; then everything has the new size. */
  lemma ResizingExactly(r: R.RuntimeState, token: S.LeaseToken, rows: u16, cols: u16, w: World)
    requires A.Tidy(r.agents) && A.AllSized(r.agents)
    ensures var (next, error) := SessionRequest(r, ResizeSession(token, rows, cols), w);
            && (error == None <==>
                && rows > 0 && cols > 0
                && (A.Size(rows, cols) == r.agents.size || forall id | id in r.agents.sessions :: id !in w.failing))
            && (error == None ==>
                && next.state.rows == rows && next.state.cols == cols && next.agents.size == A.Size(rows, cols)
                && next.agents.sessions.Keys == r.agents.sessions.Keys
                && forall id | id in next.agents.sessions :: next.agents.sessions[id].size == A.Size(rows, cols))
  {
    if rows > 0 && cols > 0 {
      AllResized(r.agents, rows, cols, w);
    }
  }

  lemma AllResized(m: A.ManagerState, rows: u16, cols: u16, w: World)
    requires A.Tidy(m) && A.AllSized(m) && rows > 0 && cols > 0
    ensures var (next, ok) := A.Resize(m, rows, cols, w.failing, w.failingBack);
            && (ok <==> A.Size(rows, cols) == m.size || forall id | id in m.sessions :: id !in w.failing)
            && (ok ==>
                && next.size == A.Size(rows, cols) && next.sessions.Keys == m.sessions.Keys
                && forall id | id in next.sessions :: next.sessions[id].size == A.Size(rows, cols))
  {
    A.ResizeAgrees(m, rows, cols, w.failing, w.failingBack);
  }
}
