/**
 What becomes of conversations over a session's life. One whose identifier and name were last observed is
 never lost by archiving, resuming, quitting or switching, with one exception: `KnownExactly` says when.
 */
module Conversations {
  import opened Basics
  import opened Frames
  import opened SessionRuntime
  import A = Agents
  import S = ServerSession

  // ---------------------------------------------------------------------------------------------
  // Every step of a session
  // ---------------------------------------------------------------------------------------------

  datatype Action =
    | SpawnAgent(kind: AgentKind, launch: Directory, reported: Option<ConversationId>, starts: bool, now: u64)
    | CloseAgent(agent: AgentId, dies: bool, now: u64)
    | ArchiveAgent(agent: AgentId, dies: bool, now: u64)
    | ResumeAgent(conversation: ConversationId, reported: Option<ConversationId>, starts: bool, now: u64)
    | Type(agent: AgentId, draft: InputDraft)
    | Select(agent: AgentId, now: u64)
    | PollAgents(exits: set<AgentId>, reports: seq<Report>)

  /** A report is of a live agent; an agent that has told its conversation's identifier goes on telling one. */
  ghost predicate Truthful(r: RuntimeState, report: Report) {
    report.id in r.previous && report.id in r.agents.sessions ==>
      && (report.exited <==> r.agents.sessions[report.id].exited)
      && (r.previous[report.id].conversation.Some? ==> report.conversation.Some?)
  }

  ghost predicate AllTruthful(r: RuntimeState, reports: seq<Report>) {
    && (forall i, j | 0 <= i < j < |reports| :: reports[i].id != reports[j].id)
    && (forall i | 0 <= i < |reports| :: Truthful(r, reports[i]))
  }

  /** Names are given, and changed, but never taken away. */
  ghost predicate Enabled(r: RuntimeState, a: Action) {
    match a
    case Type(agent, draft) => agent in r.drafts && (r.drafts[agent].title.Some? ==> draft.title.Some?)
    case PollAgents(exits, reports) => Inv(r) ==> AllTruthful(r.(agents := A.Poll(r.agents, exits)), reports)
    case _ => true
  }

  ghost function Next(r: RuntimeState, a: Action): RuntimeState {
    if !Enabled(r, a) then r
    else
      match a
      case SpawnAgent(kind, launch, reported, starts, now) => Spawn(r, kind, launch, reported, starts, now).0
      case CloseAgent(agent, dies, now) => if agent !in r.agents.sessions then r else Close(r, agent, dies, now).0
      case ArchiveAgent(agent, dies, now) => Archive(r, agent, dies, now).0
      case ResumeAgent(conversation, reported, starts, now) => ResumeArchived(r, conversation, reported, starts, now).0
      case Type(agent, draft) => r.(drafts := r.drafts[agent := draft])
      case Select(agent, now) => r.(state := S.SelectAgent(r.state, agent, now).0)
      case PollAgents(exits, reports) => Poll(r, exits, reports).0
  }

  // ---------------------------------------------------------------------------------------------
  // The invariant
  // ---------------------------------------------------------------------------------------------

  ghost predicate DistinctIds(archived: seq<ArchivedConversation>) {
    forall i, j | 0 <= i < j < |archived| :: archived[i].id != archived[j].id
  }

  /** Everything kept per agent is kept for the same agents, and the order lists each of them once. */
  ghost predicate KeysAgree(r: RuntimeState) {
    && A.Tidy(r.agents)
    && r.previous.Keys == r.agents.sessions.Keys
    && r.drafts.Keys == r.agents.sessions.Keys
    && r.state.agents.Keys == r.agents.sessions.Keys
  }

  /** Names that were observed have not been taken away, and observed exits have happened. */
  ghost predicate Observations(r: RuntimeState) {
    forall id | id in r.previous && id in r.drafts && id in r.agents.sessions ::
      && (r.previous[id].title.Some? ==> r.drafts[id].title.Some?)
      && (r.previous[id].exited ==> r.agents.sessions[id].exited)
  }

  ghost predicate Inv(r: RuntimeState) {
    KeysAgree(r) && S.SelectionOk(r.state) && Observations(r) && DistinctIds(r.archived)
  }

  lemma {:induction false} OthersKeepsDistinct(archived: seq<ArchivedConversation>, id: ConversationId)
    requires DistinctIds(archived)
    ensures DistinctIds(Others(archived, id))
    ensures forall c :: c in Others(archived, id) <==> c in archived && c.id != id
  {
    if |archived| > 0 {
      var rest := Others(archived[1..], id);
      assert DistinctIds(archived[1..]) by {
        assert forall i | 0 <= i < |archived[1..]| :: archived[1..][i] == archived[i + 1];
      }
      OthersKeepsDistinct(archived[1..], id);
      assert archived == [archived[0]] + archived[1..];
      forall i | 0 <= i < |rest|
        ensures archived[0].id != rest[i].id
      {
        assert rest[i] in archived[1..];
      }
    }
  }

  lemma FiledKeepsDistinct(archived: seq<ArchivedConversation>, record: ArchivedConversation)
    requires DistinctIds(archived)
    ensures DistinctIds(Filed(archived, record))
    ensures forall c :: c in Filed(archived, record) <==> c == record || (c in archived && c.id != record.id)
  {
    OthersKeepsDistinct(archived, record.id);
    var others := Others(archived, record.id);
    forall i | 0 <= i < |others|
      ensures record.id != others[i].id
    {
      assert others[i] in others;
    }
  }

  lemma RemoveAtKeepsDistinct(archived: seq<ArchivedConversation>, index: nat)
    requires DistinctIds(archived) && index < |archived|
    ensures DistinctIds(RemoveAt(archived, index))
    ensures forall c :: c in RemoveAt(archived, index) <==> c in archived && c.id != archived[index].id
  {
    var rest := RemoveAt(archived, index);
    assert forall i | 0 <= i < |rest| :: rest[i] == archived[if i < index then i else i + 1];
    forall c
      ensures c in rest <==> c in archived && c.id != archived[index].id
    {
      if c in archived && c.id != archived[index].id {
        var i :| 0 <= i < |archived| && archived[i] == c;
        assert rest[if i < index then i else i - 1] == c;
      }
      if c in rest {
        var i :| 0 <= i < |rest| && rest[i] == c;
        assert archived[if i < index then i else i + 1] == c;
      }
    }
  }

  lemma EnrollKeepsKeys(
    r: RuntimeState, agents: A.ManagerState, id: AgentId, seen: ObservedAgent, draft: InputDraft, now: u64)
    requires KeysAgree(r) && A.Tidy(agents)
    requires id in agents.sessions && agents.sessions == r.agents.sessions[id := agents.sessions[id]]
    ensures KeysAgree(Enroll(r, agents, id, seen, draft, now))
  {
  }

  lemma EnrollKeepsObservations(
    r: RuntimeState, agents: A.ManagerState, id: AgentId, seen: ObservedAgent, draft: InputDraft, now: u64)
    requires KeysAgree(r) && Observations(r) && !seen.exited
    requires id in agents.sessions && agents.sessions == r.agents.sessions[id := agents.sessions[id]]
    ensures Observations(Enroll(r, agents, id, seen, draft, now))
  {
  }

  lemma EnrollKeepsInv(
    r: RuntimeState, agents: A.ManagerState, id: AgentId, seen: ObservedAgent, draft: InputDraft, now: u64)
    requires Inv(r) && A.Tidy(agents) && !seen.exited && id !in r.agents.sessions
    requires id in agents.sessions && agents.sessions == r.agents.sessions[id := agents.sessions[id]]
    ensures Inv(Enroll(r, agents, id, seen, draft, now))
  {
    EnrollKeepsKeys(r, agents, id, seen, draft, now);
    EnrollKeepsObservations(r, agents, id, seen, draft, now);
    S.OperationKeepsSelection(r.state, S.RegisterOp(id, 0, now));
  }

  lemma StartKeepsInv(r: RuntimeState, starts: bool, seen: ObservedAgent, draft: InputDraft, now: u64)
    requires Inv(r) && !seen.exited
    ensures var (agents, id) := A.Spawn(r.agents, starts);
            && (id.None? ==> Inv(r.(agents := agents)))
            && (id.Some? ==> Inv(Enroll(r, agents, id.value, seen, draft, now)) && id.value !in r.previous)
  {
    A.SpawnKeepsTidy(r.agents, starts);
    var (agents, id) := A.Spawn(r.agents, starts);
    if id.Some? {
      EnrollKeepsInv(r, agents, id.value, seen, draft, now);
    }
  }

  lemma CloseKeepsInv(r: RuntimeState, id: AgentId, dies: bool, now: u64)
    requires Inv(r) && id in r.agents.sessions
    ensures Inv(Close(r, id, dies, now).0)
    ensures !Close(r, id, dies, now).1 ==> Close(r, id, dies, now).0 == r
    ensures Close(r, id, dies, now).1 ==> Close(r, id, dies, now).0.previous == r.previous - {id}
  {
    A.CloseKeepsTidy(r.agents, id, dies);
    A.WithoutKeepsOrder(r.agents.order, id);
    if Close(r, id, dies, now).1 {
      S.OperationKeepsSelection(r.state, S.RemoveOp(id, A.Without(r.agents.order, id), now));
    }
  }

  lemma ArchiveKeepsInv(r: RuntimeState, id: AgentId, dies: bool, now: u64)
    requires Inv(r)
    ensures Inv(Archive(r, id, dies, now).0)
    ensures Archive(r, id, dies, now).1.Err? ==> Archive(r, id, dies, now).0 == r
  {
    if RecordOf(r, id).Ok? {
      CloseKeepsInv(r, id, dies, now);
      FiledKeepsDistinct(r.archived, RecordOf(r, id).value);
    }
  }

  lemma QuitKeepsInv(r: RuntimeState, id: AgentId, dies: bool, diesThen: bool, now: u64)
    requires Inv(r) && id in r.agents.sessions
    ensures Inv(ArchiveAfterQuit(r, id, dies, diesThen, now).0)
  {
    ArchiveKeepsInv(r, id, dies, now);
    CloseKeepsInv(r, id, diesThen, now);
  }

  lemma ObserveKeepsInv(r: RuntimeState, report: Report)
    requires Inv(r) && Truthful(r, report)
    ensures Inv(Observe(r, report))
  {
  }

  lemma SwitchKeepsInv(r: RuntimeState, report: Report)
    requires Inv(r) && HasSwitched(r, report) && Truthful(r, report)
    ensures Inv(Observe(Switch(r, report).0, report))
  {
    SwitchKeepsArchive(r, report);
    SwitchThenObserve(r, Switch(r, report).0, report);
  }

  lemma SwitchKeepsArchive(r: RuntimeState, report: Report)
    requires DistinctIds(r.archived) && report.conversation.Some?
    ensures var s := Switch(r, report).0;
            && DistinctIds(s.archived) && s.agents == r.agents && s.state == r.state && s.previous == r.previous
            && s.drafts == r.drafts[report.id := Reactivate(r, report).0.drafts[report.id]]
  {
    var (next, reactivated) := Reactivate(r, report);
    var index := Position(r.archived, report.conversation.value);
    if index.Some? {
      RemoveAtKeepsDistinct(r.archived, index.value);
    }
    if RecordOf(r, report.id).Ok? {
      FiledKeepsDistinct(next.archived, RecordOf(r, report.id).value);
    }
  }

  lemma SwitchThenObserve(r: RuntimeState, s: RuntimeState, report: Report)
    requires Inv(r) && Truthful(r, report) && report.id in r.previous
    requires s == r.(drafts := s.drafts, archived := s.archived) && DistinctIds(s.archived)
    requires report.id in s.drafts && s.drafts == r.drafts[report.id := s.drafts[report.id]]
    ensures Inv(Observe(s, report))
  {
  }

  lemma PollOneKeepsInv(r: RuntimeState, report: Report, now: u64)
    requires Inv(r) && Truthful(r, report)
    ensures Inv(PollOne(r, report, now).0)
  {
    if HasQuit(r, report) {
      QuitKeepsInv(r, report.id, false, false, now);
    } else if HasSwitched(r, report) {
      SwitchKeepsInv(r, report);
    } else {
      ObserveKeepsInv(r, report);
    }
  }

  /** Polling one agent leaves what is known of the others alone. */
  lemma PollOneSpares(r: RuntimeState, report: Report, now: u64, other: Report)
    requires other.id != report.id && Truthful(r, other)
    ensures Truthful(PollOne(r, report, now).0, other)
  {
    if HasQuit(r, report) {
      QuitSpares(r, report.id, now, other);
    } else if HasSwitched(r, report) {
      var s := Switch(r, report).0;
      assert s.previous == r.previous && s.agents == r.agents;
    }
  }

  lemma QuitSpares(r: RuntimeState, id: AgentId, now: u64, other: Report)
    requires other.id != id && Truthful(r, other)
    ensures Truthful(ArchiveAfterQuit(r, id, false, false, now).0, other)
  {
  }

  lemma {:induction false} PollEachKeepsInv(r: RuntimeState, reports: seq<Report>, now: u64)
    requires Inv(r) && AllTruthful(r, reports)
    ensures Inv(PollEach(r, reports, now).0)
    decreases |reports|
  {
    if |reports| > 0 {
      RestTruthful(r, reports, now);
      PollOneKeepsInv(r, reports[0], now);
      PollEachKeepsInv(PollOne(r, reports[0], now).0, reports[1..], now);
    }
  }

  lemma RestTruthful(r: RuntimeState, reports: seq<Report>, now: u64)
    requires AllTruthful(r, reports) && |reports| > 0
    ensures AllTruthful(PollOne(r, reports[0], now).0, reports[1..])
  {
    assert forall i | 0 <= i < |reports[1..]| :: reports[1..][i] == reports[i + 1];
    forall i | 0 <= i < |reports[1..]|
      ensures Truthful(PollOne(r, reports[0], now).0, reports[1..][i])
    {
      assert reports[0].id != reports[i + 1].id;
      PollOneSpares(r, reports[0], now, reports[i + 1]);
    }
  }

  lemma PolledKeepsInv(r: RuntimeState, exits: set<AgentId>)
    requires Inv(r)
    ensures Inv(r.(agents := A.Poll(r.agents, exits)))
  {
  }

  lemma StepKeepsInv(r: RuntimeState, a: Action)
    requires Inv(r)
    ensures Inv(Next(r, a))
  {
    if Enabled(r, a) {
      match a {
        case SpawnAgent(kind, launch, reported, starts, now) =>
          StartKeepsInv(r, starts, ObservedAgent(kind, launch, reported, false, None), EMPTY_DRAFT, now);
        case CloseAgent(agent, dies, now) =>
          if agent in r.agents.sessions {
            CloseKeepsInv(r, agent, dies, now);
          }
        case ArchiveAgent(agent, dies, now) => ArchiveKeepsInv(r, agent, dies, now);
        case ResumeAgent(conversation, reported, starts, now) => ResumeKeepsInv(r, conversation, reported, starts, now);
        case Type(_, _) =>
        case Select(agent, now) => S.OperationKeepsSelection(r.state, S.SelectOp(agent, now));
        case PollAgents(exits, reports) =>
          PolledKeepsInv(r, exits);
          PollEachKeepsInv(r.(agents := A.Poll(r.agents, exits)), reports, r.state.lastActivity);
      }
    }
  }

  lemma ResumeKeepsInv(
    r: RuntimeState, conversation: ConversationId, reported: Option<ConversationId>, starts: bool, now: u64)
    requires Inv(r)
    ensures Inv(ResumeArchived(r, conversation, reported, starts, now).0)
  {
    var index := Position(r.archived, conversation);
    if index.Some? {
      var record := r.archived[index.value];
      StartKeepsInv(
        r, starts, ObservedAgent(record.kind, record.launch, reported, false, None),
        InputDraft(Some(record.title), false), now);
      RemoveAtKeepsDistinct(r.archived, index.value);
    }
  }

  // ---------------------------------------------------------------------------------------------
  // Known conversations
  // ---------------------------------------------------------------------------------------------

  predicate Names(seen: ObservedAgent, c: ConversationId) {
    seen.conversation == Some(c) && seen.title.Some?
  }

  predicate IsArchived(archived: seq<ArchivedConversation>, c: ConversationId) {
    exists record | record in archived :: record.id == c
  }

  /** An agent other than `except` whose last observation names the conversation. */
  predicate ActiveBut(previous: map<AgentId, ObservedAgent>, except: Option<AgentId>, c: ConversationId) {
    exists id | id in previous :: Some(id) != except && Names(previous[id], c)
  }

  /** A conversation whose identifier and name were last observed together: archived, or an agent's. */
  predicate Known(r: RuntimeState, c: ConversationId) {
    IsArchived(r.archived, c) || ActiveBut(r.previous, None, c)
  }

  /**
   The guard of a step after which a known conversation is no longer known: the user closes the one agent
   that has it, or resumes it and the new process reports another conversation from the start.
   */
  predicate Discards(r: RuntimeState, a: Action, c: ConversationId) {
    match a
    case CloseAgent(agent, dies, _) =>
      && agent in r.agents.sessions && A.Stops(r.agents.sessions[agent], dies)
      && !IsArchived(r.archived, c) && !ActiveBut(r.previous, Some(agent), c)
    case ResumeAgent(conversation, reported, starts, _) =>
      && conversation == c && A.Spawn(r.agents, starts).1.Some? && reported != Some(c)
      && !ActiveBut(r.previous, None, c)
    case _ => false
  }

  lemma CloseKnows(r: RuntimeState, agent: AgentId, dies: bool, now: u64, c: ConversationId)
    requires KeysAgree(r) && agent in r.agents.sessions && Known(r, c)
    ensures Known(Close(r, agent, dies, now).0, c) <==>
            !A.Stops(r.agents.sessions[agent], dies) || IsArchived(r.archived, c)
              || ActiveBut(r.previous, Some(agent), c)
  {
    var next := Close(r, agent, dies, now).0;
    if A.Stops(r.agents.sessions[agent], dies) {
      assert next.previous == r.previous - {agent} && next.archived == r.archived;
      if ActiveBut(r.previous, Some(agent), c) {
        var id :| id in r.previous && Some(id) != Some(agent) && Names(r.previous[id], c);
        assert id in next.previous && Names(next.previous[id], c);
      }
      if ActiveBut(next.previous, None, c) {
        var id :| id in next.previous && Names(next.previous[id], c);
        assert id in r.previous && id != agent && Names(r.previous[id], c);
      }
    }
  }

  lemma FiledKnows(archived: seq<ArchivedConversation>, record: ArchivedConversation, c: ConversationId)
    requires DistinctIds(archived)
    ensures IsArchived(Filed(archived, record), c) <==> c == record.id || IsArchived(archived, c)
  {
    FiledKeepsDistinct(archived, record);
    if IsArchived(archived, c) && c != record.id {
      var kept :| kept in archived && kept.id == c;
      assert kept in Filed(archived, record);
    }
    if c == record.id {
      assert record in Filed(archived, record);
    }
  }

  lemma RemoveAtKnows(archived: seq<ArchivedConversation>, index: nat, c: ConversationId)
    requires DistinctIds(archived) && index < |archived|
    ensures IsArchived(RemoveAt(archived, index), c) <==> c != archived[index].id && IsArchived(archived, c)
  {
    RemoveAtKeepsDistinct(archived, index);
    if IsArchived(archived, c) && c != archived[index].id {
      var kept :| kept in archived && kept.id == c;
      assert kept in RemoveAt(archived, index);
    }
  }

  lemma ArchiveKnows(r: RuntimeState, agent: AgentId, dies: bool, now: u64, c: ConversationId)
    requires Inv(r) && Known(r, c)
    ensures Known(Archive(r, agent, dies, now).0, c)
  {
    var record := RecordOf(r, agent);
    if record.Ok? && Close(r, agent, dies, now).1 {
      CloseKnows(r, agent, dies, now, c);
      FiledKnows(r.archived, record.value, c);
      if c != record.value.id && !IsArchived(r.archived, c) {
        var id :| id in r.previous && Names(r.previous[id], c);
        assert id != agent && ActiveBut(r.previous, Some(agent), c);
      }
    }
  }

  /** Quitting loses nothing: an agent that has exited can always be stopped, so the first attempt succeeds. */
  lemma QuitKnows(r: RuntimeState, agent: AgentId, now: u64, c: ConversationId)
    requires Inv(r) && agent in r.previous && r.agents.sessions[agent].exited && Known(r, c)
    ensures Known(ArchiveAfterQuit(r, agent, false, false, now).0, c)
    ensures agent !in ArchiveAfterQuit(r, agent, false, false, now).0.previous
  {
    ArchiveKnows(r, agent, false, now, c);
    if RecordOf(r, agent).Err? {
      CloseKnows(r, agent, false, now, c);
      if !IsArchived(r.archived, c) {
        var id :| id in r.previous && Names(r.previous[id], c);
        assert id != agent && ActiveBut(r.previous, Some(agent), c);
      }
    }
  }

  lemma ObserveKnows(r: RuntimeState, report: Report, c: ConversationId)
    requires Inv(r) && Truthful(r, report) && !HasSwitched(r, report) && Known(r, c)
    ensures Known(Observe(r, report), c)
  {
    if !IsArchived(r.archived, c) {
      var id :| id in r.previous && Names(r.previous[id], c);
      assert Names(Observe(r, report).previous[id], c);
    }
  }

  /** The archive after a switch, and the conversation the agent has then. */
  lemma SwitchKnows(r: RuntimeState, report: Report, c: ConversationId)
    requires Inv(r) && HasSwitched(r, report) && Known(r, c)
    ensures Known(Observe(Switch(r, report).0, report), c)
  {
    var (next, reactivated) := Reactivate(r, report);
    var index, record := Position(r.archived, report.conversation.value), RecordOf(r, report.id);
    var s := Switch(r, report).0;
    var end := Observe(s, report);
    if index.Some? {
      RemoveAtKeepsDistinct(r.archived, index.value);
      RemoveAtKnows(r.archived, index.value, c);
    }
    if record.Ok? {
      FiledKnows(next.archived, record.value, c);
    }
    if IsArchived(r.archived, c) {
      if index.Some? && r.archived[index.value].id == c {
        assert Names(end.previous[report.id], c);
      }
    } else {
      var id :| id in r.previous && Names(r.previous[id], c);
      if id != report.id {
        assert Names(end.previous[id], c);
      }
    }
  }

  lemma PollOneKnows(r: RuntimeState, report: Report, now: u64, c: ConversationId)
    requires Inv(r) && Truthful(r, report) && Known(r, c)
    ensures Known(PollOne(r, report, now).0, c)
  {
    if HasQuit(r, report) {
      QuitKnows(r, report.id, now, c);
    } else if HasSwitched(r, report) {
      SwitchKnows(r, report, c);
    } else {
      ObserveKnows(r, report, c);
    }
  }

  lemma {:induction false} PollEachKnows(r: RuntimeState, reports: seq<Report>, now: u64, c: ConversationId)
    requires Inv(r) && AllTruthful(r, reports) && Known(r, c)
    ensures Known(PollEach(r, reports, now).0, c)
    decreases |reports|
  {
    if |reports| > 0 {
      RestTruthful(r, reports, now);
      PollOneKeepsInv(r, reports[0], now);
      PollOneKnows(r, reports[0], now, c);
      PollEachKnows(PollOne(r, reports[0], now).0, reports[1..], now, c);
    }
  }

  lemma EnrolledKnows(
    r: RuntimeState, archived: seq<ArchivedConversation>, id: AgentId, seen: ObservedAgent, c: ConversationId)
    requires id !in r.previous
    ensures ActiveBut(r.previous[id := seen], None, c) <==> Names(seen, c) || ActiveBut(r.previous, None, c)
  {
    var after := r.previous[id := seen];
    if ActiveBut(r.previous, None, c) {
      var other :| other in r.previous && Names(r.previous[other], c);
      assert other in after && Names(after[other], c);
    }
    if Names(seen, c) {
      assert Names(after[id], c);
    }
  }

  lemma ResumeKnows(
    r: RuntimeState, conversation: ConversationId, reported: Option<ConversationId>, starts: bool, now: u64,
    c: ConversationId)
    requires Inv(r) && Known(r, c)
    ensures Known(ResumeArchived(r, conversation, reported, starts, now).0, c) <==>
            !(&& conversation == c && A.Spawn(r.agents, starts).1.Some? && reported != Some(c)
              && !ActiveBut(r.previous, None, c))
  {
    var index := Position(r.archived, conversation);
    var (agents, id) := A.Spawn(r.agents, starts);
    A.SpawnKeepsTidy(r.agents, starts);
    if index.Some? && id.Some? {
      var record := r.archived[index.value];
      var seen := ObservedAgent(record.kind, record.launch, reported, false, Some(record.title));
      EnrolledKnows(r, r.archived, id.value, seen, c);
      RemoveAtKnows(r.archived, index.value, c);
      assert ResumeArchived(r, conversation, reported, starts, now).0.previous == r.previous[id.value := seen];
    }
  }

  lemma SpawnKnows(
    r: RuntimeState, kind: AgentKind, launch: Directory, reported: Option<ConversationId>, starts: bool, now: u64,
    c: ConversationId)
    requires Inv(r) && Known(r, c)
    ensures Known(Spawn(r, kind, launch, reported, starts, now).0, c)
  {
    A.SpawnKeepsTidy(r.agents, starts);
    var id := A.Spawn(r.agents, starts).1;
    if id.Some? {
      EnrolledKnows(r, r.archived, id.value, ObservedAgent(kind, launch, reported, false, None), c);
    }
  }

  /** Main result: a step loses a known conversation exactly when it discards it. */
  lemma KnownExactly(r: RuntimeState, a: Action, c: ConversationId)
    requires Inv(r) && Enabled(r, a) && Known(r, c)
    ensures Known(Next(r, a), c) <==> !Discards(r, a, c)
  {
    match a {
      case SpawnAgent(kind, launch, reported, starts, now) => SpawnKnows(r, kind, launch, reported, starts, now, c);
      case CloseAgent(agent, dies, now) =>
        if agent in r.agents.sessions {
          CloseKnows(r, agent, dies, now, c);
        }
      case ArchiveAgent(agent, dies, now) => ArchiveKnows(r, agent, dies, now, c);
      case ResumeAgent(conversation, reported, starts, now) => ResumeKnows(r, conversation, reported, starts, now, c);
      case Type(_, _) =>
      case Select(_, _) =>
      case PollAgents(exits, reports) =>
        var polled := r.(agents := A.Poll(r.agents, exits));
        PolledKeepsInv(r, exits);
        PollEachKnows(polled, reports, r.state.lastActivity, c);
    }
  }

  // ---------------------------------------------------------------------------------------------
  // Who leaves in a poll
  // ---------------------------------------------------------------------------------------------

  /** The process has exited since it was last observed, and the last line typed to it asked it to quit. */
  predicate AskedAndGone(r: RuntimeState, report: Report) {
    && report.id in r.previous && report.exited && !r.previous[report.id].exited
    && report.id in r.drafts && r.drafts[report.id].quitRequested
  }

  /** The process has told one conversation before and tells another now. */
  predicate TellsAnother(r: RuntimeState, report: Report) {
    && report.id in r.previous && report.conversation.Some?
    && r.previous[report.id].conversation.Some? && r.previous[report.id].conversation != report.conversation
  }

  /** The agent is recorded as it reports itself, and is what it was. */
  ghost predicate Recorded(before: RuntimeState, after: RuntimeState, report: Report) {
    && report.id in before.previous && report.id in after.previous
    && var was, seen := before.previous[report.id], after.previous[report.id];
       && seen.kind == was.kind && seen.launch == was.launch
       && seen.conversation == report.conversation && seen.exited == report.exited
       && seen.title == TitleOf(after.drafts, report.id)
  }

  /** All that is kept of an agent is as it was. */
  ghost predicate Untouched(before: RuntimeState, after: RuntimeState, id: AgentId) {
    && (id in after.previous <==> id in before.previous) && (id in after.drafts <==> id in before.drafts)
    && (id in before.previous ==> after.previous[id] == before.previous[id])
    && (id in before.drafts ==> after.drafts[id] == before.drafts[id])
    && (id in after.agents.order <==> id in before.agents.order)
  }

  /** A record that is filed now is that of an agent that was asked to quit, or tells another conversation. */
  ghost predicate FilesOnly(before: RuntimeState, after: RuntimeState, reports: seq<Report>) {
    forall record | record in after.archived ::
      || record in before.archived
      || exists i | 0 <= i < |reports| ::
           && RecordOf(before, reports[i].id) == Ok(record)
           && (AskedAndGone(before, reports[i]) || TellsAnother(before, reports[i]))
  }

  ghost predicate LeavesOrStays(before: RuntimeState, after: RuntimeState, report: Report) {
    if AskedAndGone(before, report) then report.id !in after.agents.order && report.id !in after.previous
    else if report.id in before.previous then
      Recorded(before, after, report) && (report.id in after.agents.order <==> report.id in before.agents.order)
    else Untouched(before, after, report.id)
  }

  lemma PollOneExactly(r: RuntimeState, report: Report, now: u64)
    requires Inv(r) && Truthful(r, report)
    ensures var next := PollOne(r, report, now).0;
            LeavesOrStays(r, next, report) && forall id | id != report.id :: Untouched(r, next, id)
    ensures FilesOnly(r, PollOne(r, report, now).0, [report])
  {
    if AskedAndGone(r, report) {
      QuitExactly(r, report, now);
    } else if TellsAnother(r, report) {
      SwitchExactly(r, report);
    }
  }

  /** What the quit of a process that has exited leaves. */
  lemma QuitIs(r: RuntimeState, id: AgentId, now: u64)
    requires id in r.agents.sessions && r.agents.sessions[id].exited
    ensures var next := ArchiveAfterQuit(r, id, false, false, now).0;
            && next.previous == r.previous - {id} && next.drafts == r.drafts - {id}
            && next.agents.order == A.Without(r.agents.order, id)
            && next.archived ==
               if RecordOf(r, id).Ok? then Filed(r.archived, RecordOf(r, id).value) else r.archived
  {
  }

  lemma QuitExactly(r: RuntimeState, report: Report, now: u64)
    requires Inv(r) && Truthful(r, report) && AskedAndGone(r, report)
    ensures var next := PollOne(r, report, now).0;
            && report.id !in next.agents.order && report.id !in next.previous
            && (forall id | id != report.id :: Untouched(r, next, id)) && FilesOnly(r, next, [report])
  {
    var next := ArchiveAfterQuit(r, report.id, false, false, now).0;
    QuitIs(r, report.id, now);
    A.WithoutKeepsOrder(r.agents.order, report.id);
    QuitFilesOnly(r, next, report);
    assert PollOne(r, report, now).0 == next;
  }

  lemma QuitFilesOnly(r: RuntimeState, next: RuntimeState, report: Report)
    requires DistinctIds(r.archived) && AskedAndGone(r, report)
    requires next.archived ==
             if RecordOf(r, report.id).Ok? then Filed(r.archived, RecordOf(r, report.id).value) else r.archived
    ensures FilesOnly(r, next, [report])
  {
    if RecordOf(r, report.id).Ok? {
      FiledKeepsDistinct(r.archived, RecordOf(r, report.id).value);
      assert RecordOf(r, [report][0].id) == RecordOf(r, report.id);
    }
  }

  lemma SwitchExactly(r: RuntimeState, report: Report)
    requires Inv(r) && TellsAnother(r, report)
    ensures var next := Observe(Switch(r, report).0, report);
            && next.agents == r.agents && Recorded(r, next, report)
            && (forall id | id != report.id :: Untouched(r, next, id)) && FilesOnly(r, next, [report])
  {
    SwitchKeepsArchive(r, report);
    SwitchFilesOnly(r, report);
  }

  lemma SwitchFilesOnly(r: RuntimeState, report: Report)
    requires DistinctIds(r.archived) && TellsAnother(r, report)
    ensures FilesOnly(r, Observe(Switch(r, report).0, report), [report])
  {
    var next := Reactivate(r, report).0;
    var index := Position(r.archived, report.conversation.value);
    if index.Some? {
      RemoveAtKeepsDistinct(r.archived, index.value);
    }
    if RecordOf(r, report.id).Ok? {
      FiledKeepsDistinct(next.archived, RecordOf(r, report.id).value);
      assert RecordOf(r, [report][0].id) == RecordOf(r, report.id);
    }
  }

  /** The facts about a report are still what they were after other reports. */
  lemma UntouchedTells(before: RuntimeState, after: RuntimeState, report: Report)
    requires Untouched(before, after, report.id)
    ensures AskedAndGone(after, report) <==> AskedAndGone(before, report)
    ensures TellsAnother(after, report) <==> TellsAnother(before, report)
    ensures RecordOf(after, report.id) == RecordOf(before, report.id)
  {
  }

  ghost predicate NotReported(reports: seq<Report>, id: AgentId) {
    forall i | 0 <= i < |reports| :: reports[i].id != id
  }

  ghost predicate PollsExactly(before: RuntimeState, after: RuntimeState, reports: seq<Report>) {
    && (forall i | 0 <= i < |reports| :: LeavesOrStays(before, after, reports[i]))
    && (forall id | NotReported(reports, id) :: Untouched(before, after, id))
    && FilesOnly(before, after, reports)
  }

  lemma FirstStays(before: RuntimeState, next: RuntimeState, after: RuntimeState, report: Report)
    requires LeavesOrStays(before, next, report) && Untouched(next, after, report.id)
    ensures LeavesOrStays(before, after, report)
  {
  }

  lemma LaterStays(before: RuntimeState, next: RuntimeState, after: RuntimeState, report: Report)
    requires Untouched(before, next, report.id) && LeavesOrStays(next, after, report)
    ensures LeavesOrStays(before, after, report)
  {
  }

  lemma PollsCompose(before: RuntimeState, next: RuntimeState, after: RuntimeState, reports: seq<Report>)
    requires |reports| > 0 && forall i | 0 < i < |reports| :: reports[i].id != reports[0].id
    requires forall id | id != reports[0].id :: Untouched(before, next, id)
    requires LeavesOrStays(before, next, reports[0])
    requires FilesOnly(before, next, [reports[0]]) && PollsExactly(next, after, reports[1..])
    ensures PollsExactly(before, after, reports)
  {
    var rest := reports[1..];
    assert forall i | 0 < i < |reports| :: reports[i] == rest[i - 1];
    assert forall i | 0 <= i < |rest| :: rest[i] == reports[i + 1];
    assert NotReported(rest, reports[0].id);
    forall i | 0 <= i < |reports|
      ensures LeavesOrStays(before, after, reports[i])
    {
      if i == 0 {
        FirstStays(before, next, after, reports[0]);
      } else {
        LaterStays(before, next, after, reports[i]);
      }
    }
    forall id | NotReported(reports, id)
      ensures Untouched(before, after, id)
    {
      assert reports[0].id != id && NotReported(rest, id);
      assert Untouched(before, next, id) && Untouched(next, after, id);
    }
    forall i | 0 < i < |reports|
      ensures AskedAndGone(before, reports[i]) <==> AskedAndGone(next, rest[i - 1])
      ensures TellsAnother(before, reports[i]) <==> TellsAnother(next, rest[i - 1])
      ensures RecordOf(before, reports[i].id) == RecordOf(next, rest[i - 1].id)
    {
      UntouchedTells(before, next, reports[i]);
    }
    forall record | record in after.archived && record !in before.archived
      ensures exists i | 0 <= i < |reports| ::
                && RecordOf(before, reports[i].id) == Ok(record)
                && (AskedAndGone(before, reports[i]) || TellsAnother(before, reports[i]))
    {
      if record in next.archived {
        assert RecordOf(before, reports[0].id) == Ok(record);
      } else {
        var i :| 0 <= i < |rest| && RecordOf(next, rest[i].id) == Ok(record)
                 && (AskedAndGone(next, rest[i]) || TellsAnother(next, rest[i]));
        assert RecordOf(before, reports[i + 1].id) == Ok(record);
      }
    }
  }

  lemma {:induction false} PollEachExactly(r: RuntimeState, reports: seq<Report>, now: u64)
    requires Inv(r) && AllTruthful(r, reports)
    ensures PollsExactly(r, PollEach(r, reports, now).0, reports)
    decreases |reports|
  {
    if |reports| > 0 {
      var next := PollOne(r, reports[0], now).0;
      var end := PollEach(r, reports, now).0;
      RestTruthful(r, reports, now);
      PollOneKeepsInv(r, reports[0], now);
      PollOneExactly(r, reports[0], now);
      PollEachExactly(next, reports[1..], now);
      PollsCompose(r, next, end, reports);
    }
  }

  /**
   Main result about polls, told by what was recorded, typed and reported alone. With truthful reports an
   agent leaves exactly if its process has exited since the last poll and it was asked to quit. Every other
   agent that reports itself stays, recorded as it reports itself and as the program it was; nobody else
   changes; and only those that leave, or tell another conversation, have a record filed.
   */
  lemma PollLeavesExactly(r: RuntimeState, exits: set<AgentId>, reports: seq<Report>)
    requires Inv(r) && Enabled(r, PollAgents(exits, reports))
    ensures PollsExactly(r, Poll(r, exits, reports).0, reports)
    ensures forall id | id in r.agents.order ::
              id !in Poll(r, exits, reports).0.agents.order <==>
              exists i | 0 <= i < |reports| :: reports[i].id == id && AskedAndGone(r, reports[i])
  {
    var polled, next := r.(agents := A.Poll(r.agents, exits)), Poll(r, exits, reports).0;
    PolledKeepsInv(r, exits);
    PollEachExactly(polled, reports, r.state.lastActivity);
    forall i | 0 <= i < |reports|
      ensures LeavesOrStays(r, next, reports[i])
    {
      assert LeavesOrStays(polled, next, reports[i]);
    }
    forall id | NotReported(reports, id)
      ensures Untouched(r, next, id)
    {
      assert Untouched(polled, next, id);
    }
    SameFacts(r, polled, next, reports);
    forall id | id in r.agents.order
      ensures id !in next.agents.order <==>
              exists i | 0 <= i < |reports| :: reports[i].id == id && AskedAndGone(r, reports[i])
    {
      Leaves(r, next, reports, id);
    }
  }

  lemma SameFacts(r: RuntimeState, polled: RuntimeState, next: RuntimeState, reports: seq<Report>)
    requires polled == r.(agents := polled.agents) && FilesOnly(polled, next, reports)
    ensures FilesOnly(r, next, reports)
  {
    forall record | record in next.archived && record !in r.archived
      ensures exists i | 0 <= i < |reports| ::
                && RecordOf(r, reports[i].id) == Ok(record)
                && (AskedAndGone(r, reports[i]) || TellsAnother(r, reports[i]))
    {
      var i :| 0 <= i < |reports| && RecordOf(polled, reports[i].id) == Ok(record)
               && (AskedAndGone(polled, reports[i]) || TellsAnother(polled, reports[i]));
      assert RecordOf(r, reports[i].id) == Ok(record);
    }
  }

  lemma Leaves(r: RuntimeState, next: RuntimeState, reports: seq<Report>, id: AgentId)
    requires PollsExactly(r, next, reports) && Inv(r) && id in r.agents.order
    requires forall i, j | 0 <= i < j < |reports| :: reports[i].id != reports[j].id
    ensures id !in next.agents.order <==>
            exists i | 0 <= i < |reports| :: reports[i].id == id && AskedAndGone(r, reports[i])
  {
    if i :| 0 <= i < |reports| && reports[i].id == id {
      assert LeavesOrStays(r, next, reports[i]);
      assert id in r.previous;
    } else {
      assert NotReported(reports, id);
    }
  }

  // ---------------------------------------------------------------------------------------------
  // There and back
  // ---------------------------------------------------------------------------------------------

  /**
   A conversation resumed is what was archived: the same program in the same directory, under the same name.
   The process is observed with the conversation it reports, and the record is out of the archive, where all
   others stay.
   */
  lemma ResumeBringsBack(
    r: RuntimeState, record: ArchivedConversation, reported: Option<ConversationId>, starts: bool, now: u64)
    requires Inv(r) && record in r.archived
    ensures var (next, id) := ResumeArchived(r, record.id, reported, starts, now);
            id.Ok? ==>
              && id.value !in r.previous && id.value !in r.drafts
              && next.previous ==
                 r.previous[id.value :=
                   ObservedAgent(record.kind, record.launch, reported, false, Some(record.title))]
              && next.drafts == r.drafts[id.value := InputDraft(Some(record.title), false)]
              && (reported == Some(record.id) ==> RecordOf(next, id.value) == Ok(record))
              && (forall other :: other in next.archived <==> other in r.archived && other != record)
  {
    var index := Position(r.archived, record.id);
    RemoveAtKeepsDistinct(r.archived, index.value);
    StartKeepsInv(
      r, starts, ObservedAgent(record.kind, record.launch, reported, false, None),
      InputDraft(Some(record.title), false), now);
  }

  lemma ArchiveIs(r: RuntimeState, id: AgentId, dies: bool, now: u64)
    requires Archive(r, id, dies, now).1.Ok?
    ensures var (next, filed) := Archive(r, id, dies, now);
            && filed == RecordOf(r, id) && next.archived == Filed(r.archived, filed.value)
            && next.previous == r.previous - {id} && next.drafts == r.drafts - {id}
  {
  }

  /** Archiving what has been resumed puts the very record back, in front of those that were there. */
  lemma ResumeThenArchive(
    r: RuntimeState, record: ArchivedConversation, starts: bool, dies: bool, now: u64, later: u64)
    requires Inv(r) && record in r.archived
    ensures var (resumed, id) := ResumeArchived(r, record.id, Some(record.id), starts, now);
            id.Ok? ==>
              var (back, filed) := Archive(resumed, id.value, dies, later);
              filed.Ok? ==>
                && filed == Ok(record) && |back.archived| > 0 && back.archived[0] == record
                && (forall other :: other in back.archived <==> other in r.archived)
                && back.previous == r.previous && back.drafts == r.drafts
  {
    var (resumed, id) := ResumeArchived(r, record.id, Some(record.id), starts, now);
    ResumeBringsBack(r, record, Some(record.id), starts, now);
    ResumeKeepsInv(r, record.id, Some(record.id), starts, now);
    if id.Ok? && Archive(resumed, id.value, dies, later).1.Ok? {
      ArchiveIs(resumed, id.value, dies, later);
      PutBack(r.archived, resumed.archived, record);
      TakenOff(r.previous, id.value, resumed.previous[id.value]);
      TakenOff(r.drafts, id.value, resumed.drafts[id.value]);
    }
  }

  lemma PutBack(archived: seq<ArchivedConversation>, rest: seq<ArchivedConversation>, record: ArchivedConversation)
    requires DistinctIds(archived) && DistinctIds(rest) && record in archived
    requires forall other :: other in rest <==> other in archived && other != record
    ensures forall other :: other in Filed(rest, record) <==> other in archived
  {
    FiledKeepsDistinct(rest, record);
    assert forall other | other in archived && other != record :: other.id != record.id;
  }

  lemma TakenOff<V>(m: map<AgentId, V>, id: AgentId, v: V)
    requires id !in m
    ensures m[id := v] - {id} == m
  {
  }

  /** And resuming what has been archived gives an agent of the same record, nothing else having changed. */
  lemma ArchiveThenResume(r: RuntimeState, agent: AgentId, starts: bool, dies: bool, now: u64, later: u64)
    requires Inv(r) && RecordOf(r, agent).Ok?
    ensures var record := RecordOf(r, agent).value;
            var (archived, filed) := Archive(r, agent, dies, now);
            filed.Ok? ==>
              var (back, id) := ResumeArchived(archived, record.id, Some(record.id), starts, later);
              id.Ok? ==>
                && RecordOf(back, id.value) == Ok(record)
                && (forall other :: other in back.archived <==> other in r.archived && other.id != record.id)
                && (forall x | x in r.previous && x != agent :: x in back.previous && back.previous[x] == r.previous[x])
  {
    var record := RecordOf(r, agent).value;
    var (archived, filed) := Archive(r, agent, dies, now);
    ArchiveKeepsInv(r, agent, dies, now);
    FiledKeepsDistinct(r.archived, record);
    if filed.Ok? {
      ArchiveIs(r, agent, dies, now);
      ResumeBringsBack(archived, record, Some(record.id), starts, later);
      var (back, id) := ResumeArchived(archived, record.id, Some(record.id), starts, later);
      if id.Ok? {
        TakenOut(r.archived, archived.archived, back.archived, record);
        KeptBeside(r.previous, agent, id.value, back.previous[id.value]);
      }
    }
  }

  lemma TakenOut(
    before: seq<ArchivedConversation>, filed: seq<ArchivedConversation>, back: seq<ArchivedConversation>,
    record: ArchivedConversation)
    requires forall c :: c in filed <==> c == record || (c in before && c.id != record.id)
    requires forall c :: c in back <==> c in filed && c != record
    ensures forall c :: c in back <==> c in before && c.id != record.id
  {
  }

  lemma KeptBeside<V>(m: map<AgentId, V>, gone: AgentId, id: AgentId, v: V)
    requires id !in m - {gone}
    ensures forall x | x in m && x != gone :: x in (m - {gone})[id := v] && (m - {gone})[id := v][x] == m[x]
  {
  }

  /** A new agent is the program asked for, in the directory asked for, without a name and without a draft. */
  lemma SpawnedAsAsked(
    r: RuntimeState, kind: AgentKind, launch: Directory, reported: Option<ConversationId>, starts: bool, now: u64)
    requires Inv(r)
    ensures var (next, id) := Spawn(r, kind, launch, reported, starts, now);
            id.Ok? ==>
              && id.value !in r.previous && id.value !in r.drafts && next.archived == r.archived
              && next.previous == r.previous[id.value := ObservedAgent(kind, launch, reported, false, None)]
              && next.drafts == r.drafts[id.value := InputDraft(None, false)]
              && next.state.selected == Some(id.value)
  {
    A.SpawnKeepsTidy(r.agents, starts);
  }

  /** After a switch: the old record in front of the archive, the new one not in it, its name on the agent. */
  lemma SwitchBrings(r: RuntimeState, report: Report, record: ArchivedConversation)
    requires Inv(r) && TellsAnother(r, report) && RecordOf(r, report.id) == Ok(record)
    ensures var next := Observe(Switch(r, report).0, report);
            && |next.archived| > 0 && next.archived[0] == record && DistinctIds(next.archived)
            && (forall c | c in next.archived :: c.id != report.conversation.value)
            && (forall c | c in r.archived && c.id != report.conversation.value && c.id != record.id ::
                  c in next.archived)
            && report.id in next.drafts && !next.drafts[report.id].quitRequested
            && (forall c | c in r.archived && c.id == report.conversation.value ::
                  next.drafts[report.id].title == Some(c.title))
            && ((forall c | c in r.archived :: c.id != report.conversation.value) ==>
                  next.drafts[report.id].title == report.prompt)
  {
    SwitchKeepsArchive(r, report);
    var next := Reactivate(r, report).0;
    var index := Position(r.archived, report.conversation.value);
    if index.Some? {
      RemoveAtKeepsDistinct(r.archived, index.value);
    }
    FiledKeepsDistinct(next.archived, record);
  }

  /** An agent that switches to another conversation and back has the same record again. */
  lemma SwitchAndBack(r: RuntimeState, there: Report, back: Report, record: ArchivedConversation)
    requires Inv(r) && TellsAnother(r, there) && RecordOf(r, there.id) == Ok(record) && Truthful(r, there)
    requires back.id == there.id && back.conversation == Some(record.id)
    ensures var away := Observe(Switch(r, there).0, there);
            var home := Observe(Switch(away, back).0, back);
            TellsAnother(away, back) && RecordOf(home, back.id) == Ok(record)
  {
    var away := Observe(Switch(r, there).0, there);
    SwitchBrings(r, there, record);
    SwitchExactly(r, there);
    SwitchKeepsInv(r, there);
    assert TellsAnother(away, back);
    assert record in away.archived;
    SwitchExactly(away, back);
    var index := Position(away.archived, record.id);
    assert away.archived[index.value] == record;
  }

  lemma LastIsNewest(order: seq<AgentId>)
    requires A.Ascending(order) && order != []
    ensures S.Last(order).Some? && S.Last(order).value in order
    ensures forall other | other in order :: other <= S.Last(order).value
  {
  }

  /** When the selected agent is closed, the newest of those that remain is selected; else the selection stays. */
  lemma CloseSelectsNewest(r: RuntimeState, id: AgentId, dies: bool, now: u64)
    requires Inv(r) && id in r.agents.sessions && Close(r, id, dies, now).1
    ensures var next := Close(r, id, dies, now).0;
            if r.state.selected != Some(id) then next.state.selected == r.state.selected
            else if next.agents.order == [] then next.state.selected == None
            else
              && next.state.selected.Some? && next.state.selected.value in next.agents.order
              && forall other | other in next.agents.order :: other <= next.state.selected.value
  {
    var rest := A.Without(r.agents.order, id);
    A.WithoutKeepsOrder(r.agents.order, id);
    if rest != [] {
      LastIsNewest(rest);
    }
  }

  // ---------------------------------------------------------------------------------------------
  // Every run
  // ---------------------------------------------------------------------------------------------

  /** A session as it is created, or restored with the conversations of an earlier run. */
  ghost predicate Initial(r: RuntimeState) {
    && r.agents.sessions == map[] && r.agents.order == [] && r.previous == map[] && r.drafts == map[]
    && r.state.agents == map[] && r.state.selected == None && DistinctIds(r.archived)
  }

  ghost predicate IsRun(states: seq<RuntimeState>, actions: seq<Action>) {
    && |states| == |actions| + 1 && Initial(states[0])
    && forall i | 0 <= i < |actions| :: states[i + 1] == Next(states[i], actions[i])
  }

  lemma {:induction false} RunKeepsInv(states: seq<RuntimeState>, actions: seq<Action>, i: nat)
    requires IsRun(states, actions) && i < |states|
    ensures Inv(states[i])
  {
    if i > 0 {
      RunKeepsInv(states, actions, i - 1);
      StepKeepsInv(states[i - 1], actions[i - 1]);
    }
  }

  /**
   In every state of every run: archived identifiers are distinct, all per-agent records agree, and the
   selection fits.
   */
  lemma SessionsStayConsistent(states: seq<RuntimeState>, actions: seq<Action>, i: nat)
    requires IsRun(states, actions) && i < |states|
    ensures DistinctIds(states[i].archived) && KeysAgree(states[i])
    ensures forall j, k | 0 <= j < k < |states[i].agents.order| ::
            states[i].agents.order[j] != states[i].agents.order[k]
    ensures states[i].state.selected.None? <==> states[i].agents.order == []
    ensures states[i].state.selected.Some? ==> states[i].state.selected.value in states[i].agents.order
  {
    RunKeepsInv(states, actions, i);
    var r := states[i];
    if r.agents.order != [] {
      assert r.agents.order[0] in r.agents.order;
      assert r.agents.order[0] in r.state.agents;
    }
  }

  /** A known conversation stays known for as long as no step discards it. */
  lemma {:induction false} ConversationsAreKept(
    states: seq<RuntimeState>, actions: seq<Action>, i: nat, j: nat, c: ConversationId)
    requires IsRun(states, actions) && i <= j < |states| && Known(states[i], c)
    requires forall k | i <= k < j :: Enabled(states[k], actions[k]) ==> !Discards(states[k], actions[k], c)
    ensures Known(states[j], c)
  {
    if i < j {
      ConversationsAreKept(states, actions, i, j - 1, c);
      RunKeepsInv(states, actions, j - 1);
      if Enabled(states[j - 1], actions[j - 1]) {
        KnownExactly(states[j - 1], actions[j - 1], c);
      }
    }
  }

  /** Such a step exists: resuming the only archived conversation with a process that reports another one loses it. */
  lemma ResumeMayLose(r: RuntimeState, record: ArchivedConversation, other: ConversationId, now: u64)
    requires Initial(r) && r.archived == [record] && r.agents.nextId == Some(1) && other != record.id
    ensures var a := ResumeAgent(record.id, Some(other), true, now);
            Inv(r) && Enabled(r, a) && Known(r, record.id) && Discards(r, a, record.id) && !Known(Next(r, a), record.id)
  {
    assert r.archived[0] == record && record in r.archived;
    KnownExactly(r, ResumeAgent(record.id, Some(other), true, now), record.id);
  }
}
