/**
 Sessions as the server holds them: every one keeps the invariant of its conversations, and a known
 conversation leaves the server exactly when somebody stops its session or discards it.
 */
module ServerConversations {
  import opened Basics
  import opened Frames
  import opened Server
  import S = ServerSession
  import A = Agents
  import R = SessionRuntime
  import K = Conversations

  /** What conversations depend on is the same; leases, sizes and times may differ. */
  ghost predicate SameConversations(r: R.RuntimeState, r': R.RuntimeState) {
    && r'.previous == r.previous && r'.archived == r.archived && r'.drafts == r.drafts
    && r'.agents.order == r.agents.order && r'.agents.nextId == r.agents.nextId
    && r'.agents.sessions.Keys == r.agents.sessions.Keys
    && (forall id | id in r.agents.sessions :: r'.agents.sessions[id].exited == r.agents.sessions[id].exited)
    && r'.state.agents.Keys == r.state.agents.Keys && r'.state.selected == r.state.selected
  }

  lemma SameKeepsInv(r: R.RuntimeState, r': R.RuntimeState)
    requires K.Inv(r) && SameConversations(r, r')
    ensures K.Inv(r')
  {
  }

  lemma ResizeIsSame(r: R.RuntimeState, rows: u16, cols: u16, failing: set<AgentId>, failingBack: set<AgentId>)
    ensures SameConversations(r, r.(agents := A.Resize(r.agents, rows, cols, failing, failingBack).0))
  {
  }

  /** What a leased request does to the conversations of its session, if it is one of theirs. */
  function SessionAction(request: Request, w: World): Option<K.Action> {
    match request
    case SpawnAgent(_, kind, launch) => Some(K.SpawnAgent(kind, launch, w.reported, w.starts, w.now))
    case CloseAgent(_, agent) => Some(K.CloseAgent(agent, w.dies, w.now))
    case ArchiveAgent(_, agent) => Some(K.ArchiveAgent(agent, w.dies, w.now))
    case ResumeArchived(_, conversation) => Some(K.ResumeAgent(conversation, w.reported, w.starts, w.now))
    case SelectAgent(_, agent) => Some(K.Select(agent, w.now))
    case _ => None
  }

  lemma RequestIsAction(r: R.RuntimeState, request: Request, w: World)
    requires SessionAction(request, w).Some?
    ensures K.Enabled(r, SessionAction(request, w).value)
    ensures SessionRequest(r, request, w).0 == K.Next(r, SessionAction(request, w).value)
  {
  }

  /** Other requests leave conversations alone, but for input, which is a step of its own and then activity. */
  lemma OtherRequestIsSame(r: R.RuntimeState, request: Request, w: World)
    requires SessionAction(request, w).None? && !request.Input?
    ensures SameConversations(r, SessionRequest(r, request, w).0)
  {
    if request.ResizeSession? {
      ResizeIsSame(r, request.rows, request.cols, w.failing, w.failingBack);
    }
  }

  lemma TouchedIsSame(r: R.RuntimeState, now: u64)
    ensures SameConversations(r, r.(state := S.Touched(r.state, now)))
  {
  }

  /** What becomes of the drafts when an agent is typed to. */
  lemma TypingKeepsInv(r: R.RuntimeState, agent: AgentId, typed: R.InputDraft)
    requires K.Inv(r) && agent in r.drafts
    ensures K.Inv(r.(drafts := r.drafts[agent := Drafted(r.drafts[agent], typed)]))
  {
    var a := K.Type(agent, Drafted(r.drafts[agent], typed));
    assert K.Enabled(r, a);
    K.StepKeepsInv(r, a);
  }

  lemma InputIsTyping(r: R.RuntimeState, agent: AgentId, typed: Option<R.InputDraft>, w: World)
    requires K.Inv(r)
    ensures K.Inv(SendInput(r, agent, typed, w).0)
  {
    var drafted := r;
    if typed.Some? && agent in r.drafts {
      drafted := r.(drafts := r.drafts[agent := Drafted(r.drafts[agent], typed.value)]);
      TypingKeepsInv(r, agent, typed.value);
    }
    TouchedIsSame(drafted, w.now);
    SameKeepsInv(drafted, drafted.(state := S.Touched(drafted.state, w.now)));
    assert SendInput(r, agent, typed, w).0 == r
      || SendInput(r, agent, typed, w).0 == drafted.(state := S.Touched(drafted.state, w.now));
  }

  lemma InputKnowsTheSame(r: R.RuntimeState, agent: AgentId, typed: Option<R.InputDraft>, w: World)
    ensures var next := SendInput(r, agent, typed, w).0; next.previous == r.previous && next.archived == r.archived
  {
  }

  lemma SameKnows(r: R.RuntimeState, r': R.RuntimeState, c: R.ConversationId)
    requires r'.previous == r.previous && r'.archived == r.archived
    ensures K.Known(r', c) <==> K.Known(r, c)
  {
  }

  lemma RequestKeepsInv(r: R.RuntimeState, request: Request, w: World)
    requires K.Inv(r)
    ensures K.Inv(SessionRequest(r, request, w).0)
  {
    if request.Input? {
      InputIsTyping(r, request.agent, request.typed, w);
    } else if SessionAction(request, w).Some? {
      RequestIsAction(r, request, w);
      K.StepKeepsInv(r, SessionAction(request, w).value);
    } else {
      OtherRequestIsSame(r, request, w);
      SameKeepsInv(r, SessionRequest(r, request, w).0);
    }
  }

  /** A request loses a known conversation exactly when what it does to the session discards it. */
  predicate RequestDiscards(r: R.RuntimeState, request: Request, w: World, c: R.ConversationId) {
    SessionAction(request, w).Some? && K.Discards(r, SessionAction(request, w).value, c)
  }

  lemma RequestKnows(r: R.RuntimeState, request: Request, w: World, c: R.ConversationId)
    requires K.Inv(r) && K.Known(r, c)
    ensures K.Known(SessionRequest(r, request, w).0, c) <==> !RequestDiscards(r, request, w, c)
  {
    var next := SessionRequest(r, request, w).0;
    if request.Input? {
      InputKnowsTheSame(r, request.agent, request.typed, w);
      SameKnows(r, next, c);
    } else if SessionAction(request, w).Some? {
      RequestIsAction(r, request, w);
      K.KnownExactly(r, SessionAction(request, w).value, c);
    } else {
      OtherRequestIsSame(r, request, w);
      SameKnows(r, next, c);
    }
  }

  // ---------------------------------------------------------------------------------------------
  // All sessions
  // ---------------------------------------------------------------------------------------------

  ghost predicate SessionsInv(s: ServerState) {
    forall x | x in s.sessions :: K.Inv(s.sessions[x])
  }

  /** Every session that is left, is as it was as far as conversations go. */
  ghost predicate LeavesAlone(s: ServerState, s': ServerState) {
    && s'.sessions.Keys <= s.sessions.Keys
    && (forall x | x in s'.sessions :: SameConversations(s.sessions[x], s'.sessions[x]))
    && (forall x | x in s.sessions && x !in s'.sessions :: Abandoned(s.sessions[x]))
  }

  lemma RemoveLeavesAlone(s: ServerState, c: S.ConnectionId, now: u64)
    ensures LeavesAlone(s, RemoveConnection(s, c, now))
  {
  }

  lemma LeavesAloneTwice(s: ServerState, s': ServerState, s'': ServerState)
    requires LeavesAlone(s, s') && LeavesAlone(s', s'')
    ensures LeavesAlone(s, s'')
  {
    forall x | x in s.sessions && x !in s''.sessions
      ensures Abandoned(s.sessions[x])
    {
      if x in s'.sessions {
        assert SameConversations(s.sessions[x], s'.sessions[x]);
      }
    }
  }

  lemma {:induction false} RemoveAllLeavesAlone(s: ServerState, connections: seq<S.ConnectionId>, now: u64)
    ensures LeavesAlone(s, RemoveAll(s, connections, now))
    decreases |connections|
  {
    if |connections| > 0 {
      var next := RemoveConnection(s, connections[0], now);
      RemoveLeavesAlone(s, connections[0], now);
      RemoveAllLeavesAlone(next, connections[1..], now);
      LeavesAloneTwice(s, next, RemoveAll(next, connections[1..], now));
    }
  }

  lemma LeavesAloneKeepsInv(s: ServerState, s': ServerState)
    requires SessionsInv(s) && LeavesAlone(s, s')
    ensures SessionsInv(s')
  {
    forall x | x in s'.sessions
      ensures K.Inv(s'.sessions[x])
    {
      SameKeepsInv(s.sessions[x], s'.sessions[x]);
    }
  }

  predicate KnownIn(s: ServerState, x: S.SessionId, c: R.ConversationId) {
    x in s.sessions && K.Known(s.sessions[x], c)
  }

  lemma AbandonedKnowsNothing(r: R.RuntimeState, c: R.ConversationId)
    requires K.Inv(r) && Abandoned(r)
    ensures !K.Known(r, c)
  {
    assert forall id :: id in r.previous <==> id in r.agents.sessions;
  }

  /** A session that knows a conversation is not abandoned. */
  lemma LeavesKnown(s: ServerState, s': ServerState, x: S.SessionId, c: R.ConversationId)
    requires SessionsInv(s) && LeavesAlone(s, s')
    ensures KnownIn(s', x, c) <==> KnownIn(s, x, c)
  {
    if x in s.sessions && x !in s'.sessions {
      AbandonedKnowsNothing(s.sessions[x], c);
    }
  }

  // ---------------------------------------------------------------------------------------------
  // Requests
  // ---------------------------------------------------------------------------------------------

  /** All sessions but one are as they were, and that one has become `r`. */
  ghost predicate OneChanged(s: ServerState, s': ServerState, x: S.SessionId, r: R.RuntimeState) {
    x in s.sessions && s'.sessions == s.sessions[x := r]
  }

  lemma OneChangedKeepsInv(s: ServerState, s': ServerState, x: S.SessionId, r: R.RuntimeState)
    requires SessionsInv(s) && OneChanged(s, s', x, r) && K.Inv(r)
    ensures SessionsInv(s')
  {
  }

  lemma OneSameLeavesAlone(s: ServerState, s': ServerState, x: S.SessionId, r: R.RuntimeState)
    requires OneChanged(s, s', x, r) && SameConversations(s.sessions[x], r)
    ensures LeavesAlone(s, s')
  {
  }

  /** Attaching changes one session at most: its lease, its size and its activity. */
  lemma AttachChangesOne(
    s: ServerState, c: S.ConnectionId, x: S.SessionId, rows: u16, cols: u16, takeover: bool, w: World)
    requires c in s.connections && x in s.sessions
    ensures var next := Attach(s, c, x, rows, cols, takeover, w).0;
            var agents := A.Resize(s.sessions[x].agents, rows, cols, w.failing, w.failingBack).0;
            next.sessions != s.sessions ==>
              && OneChanged(s, next, x, next.sessions[x])
              && next.sessions[x] == s.sessions[x].(agents := agents, state := next.sessions[x].state)
              && next.sessions[x].state.agents == s.sessions[x].state.agents
              && next.sessions[x].state.selected == s.sessions[x].state.selected
  {
  }

  lemma AttachLeavesAlone(
    s: ServerState, c: S.ConnectionId, x: S.SessionId, rows: u16, cols: u16, takeover: bool, w: World)
    requires c in s.connections
    ensures LeavesAlone(s, Attach(s, c, x, rows, cols, takeover, w).0)
  {
    if x in s.sessions {
      var next := Attach(s, c, x, rows, cols, takeover, w).0;
      ResizeIsSame(s.sessions[x], rows, cols, w.failing, w.failingBack);
      AttachChangesOne(s, c, x, rows, cols, takeover, w);
      if next.sessions != s.sessions {
        OneSameLeavesAlone(s, next, x, next.sessions[x]);
      }
    }
  }

  lemma DetachLeavesAlone(s: ServerState, c: S.ConnectionId, token: S.LeaseToken, w: World)
    requires Agreement(s) && c in s.connections
    ensures LeavesAlone(s, Detach(s, c, token, w).0)
  {
  }

  lemma NewSessionInv(state: S.SessionState)
    requires state.agents == map[] && state.selected.None?
    ensures K.Inv(EmptyRuntime(state))
  {
  }

  lemma CreateKeepsSessions(s: ServerState, c: S.ConnectionId, rows: u16, cols: u16, w: World)
    requires Registered(s) && c in s.connections && SessionsInv(s)
    ensures SessionsInv(Create(s, c, rows, cols, w).0)
    ensures forall x | x in s.sessions ::
              x in Create(s, c, rows, cols, w).0.sessions && Create(s, c, rows, cols, w).0.sessions[x] == s.sessions[x]
  {
    var state := S.New(s.nextSession, rows, cols, w.now);
    if state.Ok? {
      NewSessionInv(S.Attach(state.value, c, s.connections[c].process, s.nextToken, false, w.now).0);
    }
  }

  /** The guard of a request after which a known conversation of session `x` is not known to the server any more. */
  predicate Drops(s: ServerState, d: S.ConnectionId, request: Request, w: World, x: S.SessionId, c: R.ConversationId)
    requires Agreement(s) && d in s.connections && s.connections[d].role.Some? && x in s.sessions
  {
    && Permitted(s.connections[d].role.value, request)
    && match request
       case StopSession(y, confirmed) => confirmed && y == x
       case StopServer(confirmed) => confirmed
       case StopAttachedSession(token) => AttachedSession(s, d, token) == Ok(x)
       case _ =>
         IsLeased(request) && AttachedSession(s, d, request.token) == Ok(x)
           && RequestDiscards(s.sessions[x], request, w, c)
  }

  lemma WithinKeepsInv(s: ServerState, d: S.ConnectionId, request: Request, w: World)
    requires Agreement(s) && d in s.connections && IsLeased(request) && SessionsInv(s)
    ensures SessionsInv(WithinSession(s, d, request, w).0)
  {
    var x := AttachedSession(s, d, request.token);
    if x.Ok? {
      RequestKeepsInv(s.sessions[x.value], request, w);
      OneChangedKeepsInv(
        s, WithinSession(s, d, request, w).0, x.value, SessionRequest(s.sessions[x.value], request, w).0);
    }
  }

  lemma WithinKnows(s: ServerState, d: S.ConnectionId, request: Request, w: World, x: S.SessionId, c: R.ConversationId)
    requires Agreement(s) && d in s.connections && IsLeased(request) && SessionsInv(s) && KnownIn(s, x, c)
    ensures KnownIn(WithinSession(s, d, request, w).0, x, c) <==>
            !(AttachedSession(s, d, request.token) == Ok(x) && RequestDiscards(s.sessions[x], request, w, c))
  {
    if AttachedSession(s, d, request.token) == Ok(x) {
      RequestKnows(s.sessions[x], request, w, c);
    }
  }

  lemma ApplyKeepsInv(s: ServerState, d: S.ConnectionId, request: Request, w: World)
    requires Valid(s) && d in s.connections && s.connections[d].role.Some? && SessionsInv(s)
    ensures SessionsInv(Apply(s, d, request, w).0)
  {
    var next := Apply(s, d, request, w).0;
    if Permitted(s.connections[d].role.value, request) {
      if IsLeased(request) {
        WithinKeepsInv(s, d, request, w);
      } else if request.CreateSession? {
        CreateKeepsSessions(s, d, request.rows, request.cols, w);
      } else if request.AttachSession? {
        AttachLeavesAlone(s, d, request.session, request.rows, request.cols, request.takeover, w);
        LeavesAloneKeepsInv(s, next);
      } else if request.DetachSession? {
        DetachLeavesAlone(s, d, request.token, w);
        LeavesAloneKeepsInv(s, next);
      } else {
        OthersOnlyDrop(s, d, request, w);
      }
    }
  }

  lemma OthersOnlyDrop(s: ServerState, d: S.ConnectionId, request: Request, w: World)
    requires d in s.connections && s.connections[d].role.Some? && !Misses(s, d, request)
    requires !IsLeased(request) && !request.CreateSession? && !request.AttachSession? && !request.DetachSession?
    ensures var next := Apply(s, d, request, w).0;
            forall x | x in next.sessions :: x in s.sessions && next.sessions[x] == s.sessions[x]
  {
  }

  predicate IsStop(request: Request) {
    request.StopSession? || request.StopServer? || request.StopAttachedSession?
  }

  lemma StopKnows(s: ServerState, d: S.ConnectionId, request: Request, w: World, x: S.SessionId, c: R.ConversationId)
    requires Valid(s) && d in s.connections && s.connections[d].role.Some? && KnownIn(s, x, c) && IsStop(request)
    ensures KnownIn(Apply(s, d, request, w).0, x, c) <==> !Drops(s, d, request, w, x, c)
  {
    StopRuntimeRemoves(s, if request.StopSession? then request.session else x, d);
    if request.StopAttachedSession? && AttachedSession(s, d, request.token).Ok? {
      StopRuntimeRemoves(s, AttachedSession(s, d, request.token).value, d);
    }
  }

  lemma StopRuntimeRemoves(s: ServerState, x: S.SessionId, d: S.ConnectionId)
    ensures StopRuntime(s, x, d).0.sessions == s.sessions - {x}
  {
  }

  /** A permitted request loses a known conversation exactly when it drops it. */
  lemma ApplyKnows(s: ServerState, d: S.ConnectionId, request: Request, w: World, x: S.SessionId, c: R.ConversationId)
    requires Valid(s) && d in s.connections && s.connections[d].role.Some? && SessionsInv(s) && KnownIn(s, x, c)
    ensures KnownIn(Apply(s, d, request, w).0, x, c) <==> !Drops(s, d, request, w, x, c)
  {
    var next := Apply(s, d, request, w).0;
    if Permitted(s.connections[d].role.value, request) {
      if IsLeased(request) {
        WithinKnows(s, d, request, w, x, c);
      } else if request.CreateSession? {
        CreateKeepsSessions(s, d, request.rows, request.cols, w);
      } else if request.AttachSession? {
        AttachLeavesAlone(s, d, request.session, request.rows, request.cols, request.takeover, w);
        LeavesKnown(s, next, x, c);
      } else if request.DetachSession? {
        DetachLeavesAlone(s, d, request.token, w);
        LeavesKnown(s, next, x, c);
      } else if IsStop(request) {
        StopKnows(s, d, request, w, x, c);
      } else {
        assert next == s;
      }
    }
  }

  // ---------------------------------------------------------------------------------------------
  // Every run
  // ---------------------------------------------------------------------------------------------

  /** Polls report what is so. */
  ghost predicate Honest(s: ServerState, a: Action) {
    a.Polled? && a.x in s.sessions ==> K.Enabled(s.sessions[a.x], K.PollAgents(a.exits, a.reports))
  }

  ghost predicate StepDrops(s: ServerState, a: Action, x: S.SessionId, c: R.ConversationId)
    requires Agreement(s) && x in s.sessions
  {
    && a.Received? && a.m.RequestMessage? && a.c in s.connections && s.connections[a.c].role.Some?
    && Drops(s, a.c, a.m.request, a.w, x, c)
  }

  lemma PollStep(s: ServerState, a: Action, x: S.SessionId, c: R.ConversationId)
    requires Valid(s) && !s.stopping && SessionsInv(s) && Honest(s, a) && a.Polled?
    ensures SessionsInv(Next(s, a))
    ensures KnownIn(s, x, c) ==> KnownIn(Next(s, a), x, c)
  {
    if a.x in s.sessions {
      var r, poll := s.sessions[a.x], K.PollAgents(a.exits, a.reports);
      K.StepKeepsInv(r, poll);
      if K.Known(r, c) {
        K.KnownExactly(r, poll, c);
      }
    }
  }

  /**
   One step: every session keeps its invariant, and what was known stays known exactly if the step does not
   drop it.
   */
  lemma ServerStep(s: ServerState, a: Action, x: S.SessionId, c: R.ConversationId)
    requires Valid(s) && !s.stopping && SessionsInv(s) && Honest(s, a)
    ensures SessionsInv(Next(s, a))
    ensures KnownIn(s, x, c) ==> (KnownIn(Next(s, a), x, c) <==> !StepDrops(s, a, x, c))
  {
    match a {
      case Accepted =>
      case Disconnected(d, now) =>
        RemoveLeavesAlone(s, d, now);
        LeavesAloneKeepsInv(s, Next(s, a));
        LeavesKnown(s, Next(s, a), x, c);
      case Polled(_, _, _) => PollStep(s, a, x, c);
      case Received(d, m, w) => MessageStep(s, d, m, w, x, c);
    }
  }

  lemma MessageStep(s: ServerState, d: S.ConnectionId, m: Server.Message, w: World, x: S.SessionId, c: R.ConversationId)
    requires Valid(s) && !s.stopping && SessionsInv(s)
    ensures SessionsInv(HandleMessage(s, d, m, w))
    ensures KnownIn(s, x, c) ==> (KnownIn(HandleMessage(s, d, m, w), x, c) <==> !StepDrops(s, Received(d, m, w), x, c))
  {
    if d in s.connections {
      if s.connections[d].role.None? {
        RemoveLeavesAlone(s, d, w.now);
        LeavesAloneKeepsInv(s, RemoveConnection(s, d, w.now));
        LeavesKnown(s, RemoveConnection(s, d, w.now), x, c);
      } else if m.RequestMessage? {
        var (applied, outcome) := Apply(s, d, m.request, w);
        var next := RemoveAll(applied, outcome.disconnect, w.now);
        ApplyKeepsInv(s, d, m.request, w);
        RemoveAllLeavesAlone(applied, outcome.disconnect, w.now);
        LeavesAloneKeepsInv(applied, next);
        LeavesKnown(applied, next, x, c);
        if KnownIn(s, x, c) {
          ApplyKnows(s, d, m.request, w, x, c);
        }
      }
    }
  }

  /**
   Main result: in every state of every run whose polls report what is so, every session keeps its
   conversations consistent.
   */
  lemma {:induction false} SessionsStayConsistent(states: seq<ServerState>, actions: seq<Action>, n: nat)
    requires IsRun(states, actions) && n < |states| && SessionsInv(states[0])
    requires forall i | 0 <= i < n :: Honest(states[i], actions[i])
    ensures SessionsInv(states[n])
  {
    if n > 0 {
      var m := n - 1;
      SessionsStayConsistent(states, actions, m);
      RunKeepsValid(states, actions, m);
      if !states[m].stopping {
        ServerStep(states[m], actions[m], 0, "");
      }
    }
  }

  /** And what a session knows the server goes on knowing, until a step drops it. */
  lemma {:induction false} ConversationsStay(
    states: seq<ServerState>, actions: seq<Action>, k: nat, n: nat, x: S.SessionId, c: R.ConversationId)
    requires IsRun(states, actions) && k <= n < |states| && SessionsInv(states[0]) && KnownIn(states[k], x, c)
    requires forall i | 0 <= i < n :: Honest(states[i], actions[i])
    requires forall i | k <= i < n ::
               && !states[i].stopping
               && (KnownIn(states[i], x, c) && Agreement(states[i]) ==> !StepDrops(states[i], actions[i], x, c))
    ensures KnownIn(states[n], x, c)
    decreases n
  {
    if n > k {
      var m := n - 1;
      ConversationsStay(states, actions, k, m, x, c);
      SessionsStayConsistent(states, actions, m);
      RunKeepsValid(states, actions, m);
      ServerStep(states[m], actions[m], x, c);
    }
  }
}
