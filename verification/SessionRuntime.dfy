/**
 One session's agents and conversations: spawning and closing agents, archiving a conversation and
 resuming it, what quitting does, and what happens when a program switches to another conversation.
 */
module SessionRuntime {
  import opened Basics
  import opened Frames
  import A = Agents
  import S = ServerSession

  type ConversationId = string
  type Title = string
  type Directory = string

  datatype ArchivedConversation = ArchivedConversation(
    id: ConversationId, title: Title, kind: AgentKind, launch: Directory)

  /** What the last poll saw of an agent. */
  datatype ObservedAgent = ObservedAgent(
    kind: AgentKind, launch: Directory, conversation: Option<ConversationId>, exited: bool, title: Option<Title>)

  /** What the user typed so far: the conversation's name, and whether the last line asked to quit. */
  datatype InputDraft = InputDraft(title: Option<Title>, quitRequested: bool)

  const EMPTY_DRAFT := InputDraft(None, false)

  datatype RuntimeState = RuntimeState(
    state: S.SessionState,
    agents: A.ManagerState,
    previous: map<AgentId, ObservedAgent>,
    drafts: map<AgentId, InputDraft>,
    archived: seq<ArchivedConversation>)

  datatype RuntimeError = AgentNotFound | NotResumable | Unnamed | NotStopped | NotArchived | NotStarted

  // ---------------------------------------------------------------------------------------------
  // The archive
  // ---------------------------------------------------------------------------------------------

  function Others(archived: seq<ArchivedConversation>, id: ConversationId): seq<ArchivedConversation> {
    if |archived| == 0 then []
    else if archived[0].id == id then Others(archived[1..], id)
    else [archived[0]] + Others(archived[1..], id)
  }

  /** Put at the front, in place of an older record of the same conversation. */
  function Filed(archived: seq<ArchivedConversation>, conversation: ArchivedConversation): seq<ArchivedConversation> {
    [conversation] + Others(archived, conversation.id)
  }

  function Position(archived: seq<ArchivedConversation>, id: ConversationId): (r: Option<nat>)
    ensures r.Some? ==> r.value < |archived| && archived[r.value].id == id
    ensures r.Some? ==> forall i | 0 <= i < r.value :: archived[i].id != id
    ensures r.None? ==> forall c | c in archived :: c.id != id
  {
    if |archived| == 0 then None
    else if archived[0].id == id then Some(0)
    else
      var rest := Position(archived[1..], id);
      assert archived == [archived[0]] + archived[1..];
      if rest.Some? then Some(rest.value + 1) else None
  }

  function RemoveAt<T>(items: seq<T>, index: nat): seq<T>
    requires index < |items|
  {
    items[..index] + items[index + 1..]
  }

  // ---------------------------------------------------------------------------------------------
  // Operations
  // ---------------------------------------------------------------------------------------------

  function TitleOf(drafts: map<AgentId, InputDraft>, id: AgentId): Option<Title> {
    if id in drafts then drafts[id].title else None
  }

  /** A process that has just been started, under a draft. */
  function Enroll(
    r: RuntimeState, agents: A.ManagerState, id: AgentId, seen: ObservedAgent, draft: InputDraft, now: u64)
    : RuntimeState
  {
    RuntimeState(
      S.RegisterAgent(r.state, id, 0, now), agents, r.previous[id := seen.(title := draft.title)],
      r.drafts[id := draft], r.archived)
  }

  function Spawn(
    r: RuntimeState, kind: AgentKind, launch: Directory, reported: Option<ConversationId>, starts: bool, now: u64)
    : (RuntimeState, Result<AgentId, RuntimeError>)
  {
    var (agents, id) := A.Spawn(r.agents, starts);
    if id.None? then (r.(agents := agents), Err(NotStarted))
    else
      (Enroll(r, agents, id.value, ObservedAgent(kind, launch, reported, false, None), EMPTY_DRAFT, now), Ok(id.value))
  }

  function Close(r: RuntimeState, id: AgentId, dies: bool, now: u64): (RuntimeState, bool) {
    var (agents, ok) := A.Close(r.agents, id, dies);
    if !ok then (r, false)
    else
      (RuntimeState(
         S.RemoveAgent(r.state, id, agents.order, now), agents, r.previous - {id}, r.drafts - {id}, r.archived), true)
  }

  /** The record an agent's conversation would be filed under: it must have an identifier and a name. */
  function RecordOf(r: RuntimeState, id: AgentId): Result<ArchivedConversation, RuntimeError> {
    if id !in r.previous then Err(AgentNotFound)
    else
      var seen := r.previous[id];
      if seen.conversation.None? then Err(NotResumable)
      else if seen.title.None? then Err(Unnamed)
      else Ok(ArchivedConversation(seen.conversation.value, seen.title.value, seen.kind, seen.launch))
  }

  function Archive(r: RuntimeState, id: AgentId, dies: bool, now: u64)
      : (RuntimeState, Result<ArchivedConversation, RuntimeError>)
  {
    var record := RecordOf(r, id);
    if record.Err? then (r, record)
    else
      var (closed, ok) := Close(r, id, dies, now);
      if !ok then (r, Err(NotStopped))
      else (closed.(state := S.Bumped(closed.state), archived := Filed(closed.archived, record.value)), record)
  }

  /** After a quit the agent goes either way; only its conversation may be kept. */
  function ArchiveAfterQuit(r: RuntimeState, id: AgentId, dies: bool, diesThen: bool, now: u64)
    : (RuntimeState, Result<ArchivedConversation, RuntimeError>)
  {
    var (next, record) := Archive(r, id, dies, now);
    if record.Ok? then (next, record)
    else
      var (closed, ok) := Close(next, id, diesThen, now);
      (closed, if ok then record else Err(NotStopped))
  }

  function ResumeArchived(
    r: RuntimeState, conversation: ConversationId, reported: Option<ConversationId>, starts: bool, now: u64)
    : (RuntimeState, Result<AgentId, RuntimeError>)
  {
    var index := Position(r.archived, conversation);
    if index.None? then (r, Err(NotArchived))
    else
      var record := r.archived[index.value];
      var (agents, id) := A.Spawn(r.agents, starts);
      if id.None? then (r.(agents := agents), Err(NotStarted))
      else
        var seen := ObservedAgent(record.kind, record.launch, reported, false, None);
        var enrolled := Enroll(r, agents, id.value, seen, InputDraft(Some(record.title), false), now);
        (enrolled.(state := S.Bumped(enrolled.state), archived := RemoveAt(r.archived, index.value)), Ok(id.value))
  }

  // ---------------------------------------------------------------------------------------------
  // Polling
  // ---------------------------------------------------------------------------------------------

  /** What one agent's process reports, and the first message of its conversation as found in the provider's history. */
  datatype Report = Report(id: AgentId, conversation: Option<ConversationId>, exited: bool, prompt: Option<Title>)

  datatype Outcome =
    | QuitArchived(agent: AgentId, record: ArchivedConversation)
    | QuitRemoved(agent: AgentId)
    | Switched(agent: AgentId, archived: Option<ArchivedConversation>, reactivated: Option<ConversationId>)
    | Quiet

  predicate HasQuit(r: RuntimeState, report: Report) {
    && report.exited && (report.id in r.previous ==> !r.previous[report.id].exited)
    && report.id in r.drafts && r.drafts[report.id].quitRequested
  }

  predicate HasSwitched(r: RuntimeState, report: Report) {
    && report.id in r.previous
    && r.previous[report.id].conversation.Some? && report.conversation.Some?
    && r.previous[report.id].conversation != report.conversation
  }

  /** The new conversation's draft; one that was archived is taken out of the archive. */
  function Reactivate(r: RuntimeState, report: Report): (RuntimeState, Option<ConversationId>)
    requires report.conversation.Some?
  {
    var index := Position(r.archived, report.conversation.value);
    if index.Some? then
      (r.(archived := RemoveAt(r.archived, index.value),
          drafts := r.drafts[report.id := InputDraft(Some(r.archived[index.value].title), false)]),
       report.conversation)
    else (r.(drafts := r.drafts[report.id := InputDraft(report.prompt, false)]), None)
  }

  function Switch(r: RuntimeState, report: Report): (RuntimeState, Outcome)
    requires report.conversation.Some?
  {
    var (next, reactivated) := Reactivate(r, report);
    var record := RecordOf(r, report.id);
    if record.Ok? then
      (next.(archived := Filed(next.archived, record.value)), Switched(report.id, Some(record.value), reactivated))
    else (next, Switched(report.id, None, reactivated))
  }

  function Observe(r: RuntimeState, report: Report): RuntimeState {
    if report.id !in r.previous then r
    else
      r.(previous := r.previous[report.id := r.previous[report.id].(
           conversation := report.conversation, exited := report.exited, title := TitleOf(r.drafts, report.id))])
  }

  function PollOne(r: RuntimeState, report: Report, now: u64): (RuntimeState, Outcome) {
    if HasQuit(r, report) then
      var (next, record) := ArchiveAfterQuit(r, report.id, false, false, now);
      (next, if record.Ok? then QuitArchived(report.id, record.value) else QuitRemoved(report.id))
    else if HasSwitched(r, report) then
      var (next, outcome) := Switch(r, report);
      (Observe(next, report), outcome)
    else (Observe(r, report), Quiet)
  }

  function PollEach(r: RuntimeState, reports: seq<Report>, now: u64): (RuntimeState, seq<Outcome>)
    decreases |reports|
  {
    if |reports| == 0 then (r, [])
    else
      var (next, outcome) := PollOne(r, reports[0], now);
      var (end, more) := PollEach(next, reports[1..], now);
      (end, [outcome] + more)
  }

  datatype Event =
    | AgentAdded(agent: AgentId)
    | AgentRemoved(agent: AgentId)
    | AgentArchived(agent: AgentId, record: ArchivedConversation)
    | ArchivedResumed(conversation: ConversationId, agent: AgentId)
    | ConversationSwitched(agent: AgentId, archived: Option<ArchivedConversation>, reactivated: Option<ConversationId>)

  /** Quits that were archived are events of kind 0, other quits of kind 1, switches of kind 2. */
  function EventOf(outcome: Outcome, kind: nat): seq<Event> {
    match outcome
    case QuitArchived(agent, record) => if kind == 0 then [AgentArchived(agent, record)] else []
    case QuitRemoved(agent) => if kind == 1 then [AgentRemoved(agent)] else []
    case Switched(agent, archived, reactivated) =>
      if kind == 2 then [ConversationSwitched(agent, archived, reactivated)] else []
    case Quiet => []
  }

  function EventsOf(outcomes: seq<Outcome>, kind: nat): seq<Event> {
    if |outcomes| == 0 then [] else EventOf(outcomes[0], kind) + EventsOf(outcomes[1..], kind)
  }

  /** Archived quits first, then the other quits, then the switches. */
  function PollEvents(outcomes: seq<Outcome>): seq<Event> {
    EventsOf(outcomes, 0) + EventsOf(outcomes, 1) + EventsOf(outcomes, 2)
  }

  function Poll(r: RuntimeState, exits: set<AgentId>, reports: seq<Report>): (RuntimeState, seq<Event>) {
    var polled := r.(agents := A.Poll(r.agents, exits));
    var (next, outcomes) := PollEach(polled, reports, r.state.lastActivity);
    (next, PollEvents(outcomes))
  }

  class Runtime {
    const state: S.ServerSessionState
    const agents: A.AgentManager
    var previous: map<AgentId, ObservedAgent>
    var drafts: map<AgentId, InputDraft>
    var archived: seq<ArchivedConversation>

    function State(): RuntimeState
      reads this, state, agents
    {
      RuntimeState(state.State(), agents.State(), previous, drafts, archived)
    }

    constructor (state: S.ServerSessionState, archived: seq<ArchivedConversation>)
      ensures this.state == state && fresh(agents)
      ensures State() == RuntimeState(
                state.State(), A.ManagerState(map[], [], Some(1), A.PtySize(state.rows, state.cols)), map[], map[],
                archived)
    {
      this.state := state;
      this.archived := archived;
      agents := new A.AgentManager(A.PtySize(state.rows, state.cols));
      previous, drafts := map[], map[];
    }

    method SpawnAgent(kind: AgentKind, launch: Directory, reported: Option<ConversationId>, starts: bool, now: u64)
      returns (r: Result<AgentId, RuntimeError>)
      modifies this, state, agents
      ensures (State(), r) == Spawn(old(State()), kind, launch, reported, starts, now)
    {
      var id := agents.Start(starts);
      if id.None? {
        return Err(NotStarted);
      }
      Add(id.value, ObservedAgent(kind, launch, reported, false, None), EMPTY_DRAFT, now);
      r := Ok(id.value);
    }

    method Add(id: AgentId, seen: ObservedAgent, draft: InputDraft, now: u64)
      modifies this, state
      ensures State() == Enroll(old(State()), agents.State(), id, seen, draft, now)
    {
      state.Register(id, 0, now);
      drafts := drafts[id := draft];
      previous := previous[id := seen.(title := TitleOf(drafts, id))];
    }

    method CloseAgent(id: AgentId, dies: bool, now: u64) returns (ok: bool)
      modifies this, state, agents
      ensures (State(), ok) == Close(old(State()), id, dies, now)
    {
      ok := agents.CloseAgent(id, dies);
      if !ok {
        assert agents.State() == old(agents.State());
        return;
      }
      previous := previous - {id};
      drafts := drafts - {id};
      state.Remove(id, agents.order, now);
    }

    method ArchiveAgent(id: AgentId, dies: bool, now: u64) returns (r: Result<ArchivedConversation, RuntimeError>)
      modifies this, state, agents
      ensures (State(), r) == Archive(old(State()), id, dies, now)
    {
      if id !in previous {
        return Err(AgentNotFound);
      }
      var seen := previous[id];
      if seen.conversation.None? {
        return Err(NotResumable);
      }
      if seen.title.None? {
        return Err(Unnamed);
      }
      var record := ArchivedConversation(seen.conversation.value, seen.title.value, seen.kind, seen.launch);
      var ok := CloseAgent(id, dies, now);
      if !ok {
        return Err(NotStopped);
      }
      archived := Others(archived, record.id);
      archived := [record] + archived;
      state.BumpRevision();
      r := Ok(record);
    }

    method ArchiveQuitAgent(id: AgentId, dies: bool, diesThen: bool, now: u64)
      returns (r: Result<ArchivedConversation, RuntimeError>)
      modifies this, state, agents
      ensures (State(), r) == ArchiveAfterQuit(old(State()), id, dies, diesThen, now)
    {
      r := ArchiveAgent(id, dies, now);
      if r.Err? {
        var ok := CloseAgent(id, diesThen, now);
        if !ok {
          r := Err(NotStopped);
        }
      }
    }

    method Resume(conversation: ConversationId, reported: Option<ConversationId>, starts: bool, now: u64)
      returns (r: Result<AgentId, RuntimeError>)
      modifies this, state, agents
      ensures (State(), r) == ResumeArchived(old(State()), conversation, reported, starts, now)
    {
      var index := Position(archived, conversation);
      if index.None? {
        return Err(NotArchived);
      }
      var record := archived[index.value];
      var id := agents.Start(starts);
      if id.None? {
        return Err(NotStarted);
      }
      var seen := ObservedAgent(record.kind, record.launch, reported, false, None);
      Add(id.value, seen, InputDraft(Some(record.title), false), now);
      archived := RemoveAt(archived, index.value);
      state.BumpRevision();
      r := Ok(id.value);
    }

    method PollAgents(exits: set<AgentId>, reports: seq<Report>) returns (events: seq<Event>)
      modifies this, state, agents
      ensures (State(), events) == Poll(old(State()), exits, reports)
    {
      var now := state.lastActivity;
      agents.PollAll(exits);
      ghost var all := PollEach(State(), reports, now);
      var quitArchived: seq<Event>, quitRemoved: seq<Event>, switched: seq<Event> := [], [], [];
      ghost var outcomes: seq<Outcome> := [];
      assert reports[0..] == reports;
      for i := 0 to |reports|
        invariant PollEach(State(), reports[i..], now).0 == all.0
        invariant outcomes + PollEach(State(), reports[i..], now).1 == all.1
        invariant quitArchived == EventsOf(outcomes, 0)
        invariant quitRemoved == EventsOf(outcomes, 1)
        invariant switched == EventsOf(outcomes, 2)
      {
        assert reports[i..][0] == reports[i] && reports[i..][1..] == reports[i + 1..];
        var outcome := PollAgent(reports[i], now);
        OneMoreOutcome(outcomes, outcome, 0);
        OneMoreOutcome(outcomes, outcome, 1);
        OneMoreOutcome(outcomes, outcome, 2);
        Regroup(outcomes, outcome, PollEach(State(), reports[i + 1..], now).1);
        outcomes := outcomes + [outcome];
        match outcome {
          case QuitArchived(agent, record) => quitArchived := quitArchived + [AgentArchived(agent, record)];
          case QuitRemoved(agent) => quitRemoved := quitRemoved + [AgentRemoved(agent)];
          case Switched(agent, record, reactivated) =>
            switched := switched + [ConversationSwitched(agent, record, reactivated)];
          case Quiet =>
        }
      }
      assert outcomes + [] == outcomes;
      events := quitArchived + quitRemoved + switched;
    }

    /** What is done about one agent that has been polled. */
    method PollAgent(report: Report, now: u64) returns (outcome: Outcome)
      modifies this, state, agents
      ensures (State(), outcome) == PollOne(old(State()), report, now)
    {
      if HasQuit(State(), report) {
        var record := ArchiveQuitAgent(report.id, false, false, now);
        if record.Ok? {
          return QuitArchived(report.id, record.value);
        }
        return QuitRemoved(report.id);
      }
      outcome := Quiet;
      if HasSwitched(State(), report) {
        outcome := SwitchConversation(report);
      }
      if report.id in previous {
        previous := previous[report.id := previous[report.id].(
          conversation := report.conversation, exited := report.exited, title := TitleOf(drafts, report.id))];
      }
    }

    method SwitchConversation(report: Report) returns (outcome: Outcome)
      requires HasSwitched(State(), report)
      modifies this`drafts, this`archived
      ensures (State(), outcome) == Switch(old(State()), report)
    {
      var reactivated := None;
      var index := Position(archived, report.conversation.value);
      if index.Some? {
        drafts := drafts[report.id := InputDraft(Some(archived[index.value].title), false)];
        archived := RemoveAt(archived, index.value);
        reactivated := report.conversation;
      } else {
        drafts := drafts[report.id := InputDraft(report.prompt, false)];
      }
      var filed := None;
      var was := previous[report.id];
      if was.conversation.Some? && was.title.Some? {
        var record := ArchivedConversation(was.conversation.value, was.title.value, was.kind, was.launch);
        archived := Others(archived, record.id);
        archived := [record] + archived;
        filed := Some(record);
      }
      outcome := Switched(report.id, filed, reactivated);
    }
  }

  lemma {:induction false} OneMoreOutcome(outcomes: seq<Outcome>, outcome: Outcome, kind: nat)
    ensures EventsOf(outcomes + [outcome], kind) == EventsOf(outcomes, kind) + EventOf(outcome, kind)
  {
    if |outcomes| == 0 {
      assert outcomes + [outcome] == [outcome];
      assert EventOf(outcome, kind) + [] == [] + EventOf(outcome, kind);
    } else {
      assert (outcomes + [outcome])[1..] == outcomes[1..] + [outcome];
      OneMoreOutcome(outcomes[1..], outcome, kind);
    }
  }
}
