/**
 The client's lists of agents and of archived conversations, kept up to date from the server's events
 alone. The agents are always mirrored. The archive is, except after polls that do not keep its order: a
 poll's events are not sent in the order in which the server acted.
 */
module Mirror {
  import opened Basics
  import opened Frames
  import opened SessionRuntime
  import opened Conversations
  import opened FilingOrder
  import A = Agents

  datatype AppState = AppState(agents: seq<AgentId>, archived: seq<ArchivedConversation>, selected: nat)

  function IndexOf(agents: seq<AgentId>, id: AgentId): (r: Option<nat>)
    ensures r.Some? ==> r.value < |agents| && agents[r.value] == id
    ensures r.None? ==> id !in agents
  {
    if |agents| == 0 then None
    else if agents[0] == id then Some(0)
    else
      var rest := IndexOf(agents[1..], id);
      if rest.Some? then Some(rest.value + 1) else None
  }

  function Add(app: AppState, id: AgentId): AppState {
    app.(agents := app.agents + [id], selected := |app.agents|)
  }

  function Remove(app: AppState, id: AgentId): AppState {
    var index := IndexOf(app.agents, id);
    if index.None? then app
    else
      var agents := RemoveAt(app.agents, index.value);
      var last := if |agents| == 0 then 0 else |agents| - 1;
      app.(agents := agents, selected := if app.selected < last then app.selected else last)
  }

  /** Adding selects the new agent. Removing keeps the position selected, unless that is now past the end. */
  lemma SelectionFollows(app: AppState, id: AgentId)
    ensures var next := Add(app, id); next.selected < |next.agents| && next.agents[next.selected] == id
    ensures var next := Remove(app, id);
            && (id !in app.agents ==> next == app)
            && (id in app.agents && app.selected < |next.agents| ==> next.selected == app.selected)
            && (id in app.agents && app.selected >= |next.agents| > 0 ==> next.selected == |next.agents| - 1)
            && (id in app.agents && next.agents == [] ==> next.selected == 0)
  {
    if |app.agents| > 0 {
      IndexOfFinds(app.agents, id);
    }
  }

  lemma {:induction false} IndexOfFinds(agents: seq<AgentId>, id: AgentId)
    ensures IndexOf(agents, id).Some? <==> id in agents
  {
    if |agents| > 0 {
      assert agents == [agents[0]] + agents[1..];
      IndexOfFinds(agents[1..], id);
    }
  }

  function ArchiveRemote(app: AppState, id: AgentId, record: ArchivedConversation): AppState {
    var removed := Remove(app, id);
    removed.(archived := Filed(removed.archived, record))
  }

  function Resume(app: AppState, conversation: ConversationId, id: AgentId): AppState {
    Add(app.(archived := Others(app.archived, conversation)), id)
  }

  function Handle(app: AppState, e: Event): AppState {
    match e
    case AgentAdded(agent) => Add(app, agent)
    case AgentRemoved(agent) => Remove(app, agent)
    case AgentArchived(agent, record) => ArchiveRemote(app, agent, record)
    case ArchivedResumed(conversation, agent) => Resume(app, conversation, agent)
    case ConversationSwitched(_, record, reactivated) =>
      app.(archived := SwitchArchive(app.archived, record, reactivated))
  }

  function HandleAll(app: AppState, events: seq<Event>): AppState
    decreases |events|
  {
    if |events| == 0 then app else HandleAll(Handle(app, events[0]), events[1..])
  }

  class App {
    var agents: seq<AgentId>
    var archived: seq<ArchivedConversation>
    var selected: nat

    function State(): AppState
      reads this
    {
      AppState(agents, archived, selected)
    }

    /** A client starts from the snapshot it is sent when it attaches. */
    constructor (agents: seq<AgentId>, archived: seq<ArchivedConversation>)
      ensures State() == AppState(agents, archived, 0)
    {
      this.agents, this.archived, selected := agents, archived, 0;
    }

    method AddRemoteAgent(id: AgentId)
      modifies this
      ensures State() == Add(old(State()), id)
    {
      agents := agents + [id];
      selected := |agents| - 1;
    }

    method RemoveAgent(id: AgentId)
      modifies this
      ensures State() == Remove(old(State()), id)
    {
      var index := IndexOf(agents, id);
      if index.None? {
        return;
      }
      agents := agents[..index.value] + agents[index.value + 1..];
      var last := if |agents| == 0 then 0 else |agents| - 1;
      if last < selected {
        selected := last;
      }
    }

    method ArchiveRemoteAgent(id: AgentId, record: ArchivedConversation)
      modifies this
      ensures State() == ArchiveRemote(old(State()), id, record)
    {
      RemoveAgent(id);
      archived := Others(archived, record.id);
      archived := [record] + archived;
    }

    method ResumeRemoteAgent(conversation: ConversationId, id: AgentId)
      modifies this
      ensures State() == Resume(old(State()), conversation, id)
    {
      archived := Others(archived, conversation);
      AddRemoteAgent(id);
    }

    method ApplyConversationSwitch(record: Option<ArchivedConversation>, reactivated: Option<ConversationId>)
      modifies this`archived
      ensures State() == old(State()).(archived := SwitchArchive(old(archived), record, reactivated))
    {
      if reactivated.Some? {
        archived := Others(archived, reactivated.value);
      }
      if record.Some? {
        archived := Others(archived, record.value.id);
        archived := [record.value] + archived;
      }
    }
  }

  // ---------------------------------------------------------------------------------------------
  // What the server sends
  // ---------------------------------------------------------------------------------------------

  /** The events of one request or poll that the mirrored lists depend on. */
  ghost function EventsFor(r: RuntimeState, a: Action): seq<Event> {
    if !Enabled(r, a) then []
    else
      match a
      case SpawnAgent(kind, launch, reported, starts, now) =>
        var id := Spawn(r, kind, launch, reported, starts, now).1;
        if id.Ok? then [AgentAdded(id.value)] else []
      case CloseAgent(agent, dies, now) =>
        if agent in r.agents.sessions && Close(r, agent, dies, now).1 then [AgentRemoved(agent)] else []
      case ArchiveAgent(agent, dies, now) =>
        var record := Archive(r, agent, dies, now).1;
        if record.Ok? then [AgentArchived(agent, record.value)] else []
      case ResumeAgent(conversation, reported, starts, now) =>
        var id := ResumeArchived(r, conversation, reported, starts, now).1;
        if id.Ok? then [ArchivedResumed(conversation, id.value)] else []
      case Type(_, _) => []
      case Select(_, _) => []
      case PollAgents(exits, reports) => Poll(r, exits, reports).1
  }

  // ---------------------------------------------------------------------------------------------
  // Lists
  // ---------------------------------------------------------------------------------------------

  lemma {:induction false} RemoveIsWithout(app: AppState, id: AgentId)
    requires A.Ascending(app.agents)
    ensures Remove(app, id).agents == A.Without(app.agents, id) && Remove(app, id).archived == app.archived
  {
    RemoveOnce(app.agents, id);
  }

  lemma RemoveAtCons<T>(first: T, rest: seq<T>, i: nat)
    requires i < |rest|
    ensures RemoveAt([first] + rest, i + 1) == [first] + RemoveAt(rest, i)
  {
  }

  lemma AscendingTail(agents: seq<AgentId>)
    requires A.Ascending(agents) && |agents| > 0
    ensures A.Ascending(agents[1..]) && agents[0] !in agents[1..]
  {
    assert forall i | 0 <= i < |agents[1..]| :: agents[1..][i] == agents[i + 1];
  }

  lemma {:induction false} RemoveOnce(agents: seq<AgentId>, id: AgentId)
    requires A.Ascending(agents)
    ensures A.Without(agents, id) ==
            if IndexOf(agents, id).Some? then RemoveAt(agents, IndexOf(agents, id).value) else agents
  {
    if |agents| > 0 {
      var rest := agents[1..];
      assert agents == [agents[0]] + rest;
      AscendingTail(agents);
      RemoveOnce(rest, id);
      if agents[0] == id {
        assert RemoveAt(agents, 0) == rest;
      } else if IndexOf(rest, id).Some? {
        RemoveAtCons(agents[0], rest, IndexOf(rest, id).value);
      }
    }
  }

  lemma DistinctTail(archived: seq<ArchivedConversation>)
    requires DistinctIds(archived) && |archived| > 0
    ensures DistinctIds(archived[1..]) && forall c | c in archived[1..] :: c.id != archived[0].id
  {
    assert forall i | 0 <= i < |archived[1..]| :: archived[1..][i] == archived[i + 1];
  }

  lemma {:induction false} NothingToRemove(archived: seq<ArchivedConversation>, id: ConversationId)
    requires forall c | c in archived :: c.id != id
    ensures Others(archived, id) == archived
  {
    if |archived| > 0 {
      assert archived == [archived[0]] + archived[1..];
      NothingToRemove(archived[1..], id);
    }
  }

  /** Taking out one record is taking out all records of its conversation, since there is only one. */
  lemma {:induction false} RemoveAtIsOthers(archived: seq<ArchivedConversation>, id: ConversationId)
    requires DistinctIds(archived)
    ensures Others(archived, id) ==
            if Position(archived, id).Some? then RemoveAt(archived, Position(archived, id).value) else archived
  {
    if |archived| > 0 {
      var rest := archived[1..];
      assert archived == [archived[0]] + rest;
      DistinctTail(archived);
      if archived[0].id == id {
        NothingToRemove(rest, id);
        assert RemoveAt(archived, 0) == rest;
      } else {
        RemoveAtIsOthers(rest, id);
        if Position(rest, id).Some? {
          RemoveAtCons(archived[0], rest, Position(rest, id).value);
        }
      }
    }
  }

  lemma {:induction false} HandleConcat(app: AppState, a: seq<Event>, b: seq<Event>)
    ensures HandleAll(app, a + b) == HandleAll(HandleAll(app, a), b)
    decreases |a|
  {
    if |a| == 0 {
      assert a + b == b;
    } else {
      assert (a + b)[1..] == a[1..] + b;
      HandleConcat(Handle(app, a[0]), a[1..], b);
    }
  }

  // ---------------------------------------------------------------------------------------------
  // The agents after a poll
  // ---------------------------------------------------------------------------------------------

  function Kept(order: seq<AgentId>, gone: set<AgentId>): seq<AgentId> {
    if |order| == 0 then []
    else if order[0] in gone then Kept(order[1..], gone)
    else [order[0]] + Kept(order[1..], gone)
  }

  lemma {:induction false} KeptWithout(order: seq<AgentId>, gone: set<AgentId>, id: AgentId)
    ensures A.Without(Kept(order, gone), id) == Kept(order, gone + {id})
    ensures Kept(A.Without(order, id), gone) == Kept(order, {id} + gone)
  {
    if |order| > 0 {
      KeptWithout(order[1..], gone, id);
      var rest := Kept(order[1..], gone);
      assert ([order[0]] + rest)[1..] == rest;
      assert ([order[0]] + A.Without(order[1..], id))[1..] == A.Without(order[1..], id);
    }
  }

  lemma {:induction false} KeptAll(order: seq<AgentId>)
    ensures Kept(order, {}) == order
  {
    if |order| > 0 {
      KeptAll(order[1..]);
    }
  }

  function GoneIn(events: seq<Event>): set<AgentId> {
    if |events| == 0 then {}
    else
      (match events[0]
       case AgentRemoved(agent) => {agent}
       case AgentArchived(agent, _) => {agent}
       case _ => {})
      + GoneIn(events[1..])
  }

  lemma {:induction false} GoneInConcat(a: seq<Event>, b: seq<Event>)
    ensures GoneIn(a + b) == GoneIn(a) + GoneIn(b)
  {
    if |a| == 0 {
      assert a + b == b;
    } else {
      assert (a + b)[1..] == a[1..] + b;
      GoneInConcat(a[1..], b);
    }
  }

  predicate NoneAdded(events: seq<Event>) {
    forall i | 0 <= i < |events| :: !events[i].AgentAdded? && !events[i].ArchivedResumed?
  }

  lemma {:induction false} HandledAgents(app: AppState, events: seq<Event>)
    requires A.Ascending(app.agents) && NoneAdded(events)
    ensures HandleAll(app, events).agents == Kept(app.agents, GoneIn(events))
    decreases |events|
  {
    if |events| == 0 {
      KeptAll(app.agents);
    } else {
      var next := Handle(app, events[0]);
      var gone :=
        match events[0] case AgentRemoved(agent) => {agent} case AgentArchived(agent, _) => {agent} case _ => {};
      if gone != {} {
        var id := events[0].agent;
        RemoveIsWithout(app, id);
        A.WithoutKeepsOrder(app.agents, id);
        KeptWithout(app.agents, GoneIn(events[1..]), id);
      }
      assert NoneAdded(events[1..]) by {
        assert forall i | 0 <= i < |events[1..]| :: events[1..][i] == events[i + 1];
      }
      HandledAgents(next, events[1..]);
      assert {} + GoneIn(events[1..]) == GoneIn(events[1..]);
    }
  }

  function QuitOf(outcome: Outcome): set<AgentId> {
    if outcome.QuitArchived? || outcome.QuitRemoved? then {outcome.agent} else {}
  }

  function QuitsOf(outcomes: seq<Outcome>): set<AgentId> {
    if |outcomes| == 0 then {} else QuitOf(outcomes[0]) + QuitsOf(outcomes[1..])
  }

  lemma {:induction false} EventsTellQuits(outcomes: seq<Outcome>)
    ensures GoneIn(EventsOf(outcomes, 0)) + GoneIn(EventsOf(outcomes, 1)) + GoneIn(EventsOf(outcomes, 2)) ==
            QuitsOf(outcomes)
    ensures NoneAdded(EventsOf(outcomes, 0)) && NoneAdded(EventsOf(outcomes, 1)) && NoneAdded(EventsOf(outcomes, 2))
  {
    if |outcomes| > 0 {
      EventsTellQuits(outcomes[1..]);
      GoneInConcat(EventOf(outcomes[0], 0), EventsOf(outcomes[1..], 0));
      GoneInConcat(EventOf(outcomes[0], 1), EventsOf(outcomes[1..], 1));
      GoneInConcat(EventOf(outcomes[0], 2), EventsOf(outcomes[1..], 2));
      EventTellsQuit(outcomes[0]);
    }
  }

  lemma EventTellsQuit(outcome: Outcome)
    ensures GoneIn(EventOf(outcome, 0)) + GoneIn(EventOf(outcome, 1)) + GoneIn(EventOf(outcome, 2)) == QuitOf(outcome)
  {
    match outcome {
      case QuitArchived(agent, record) => assert [AgentArchived(agent, record)][1..] == [];
      case QuitRemoved(agent) => assert [AgentRemoved(agent)][1..] == [];
      case Switched(agent, archived, reactivated) =>
        assert [ConversationSwitched(agent, archived, reactivated)][1..] == [];
      case Quiet =>
    }
  }

  lemma QuitTells(r: RuntimeState, id: AgentId, now: u64)
    requires KeysAgree(r) && id in r.previous && r.agents.sessions[id].exited
    ensures var (next, record) := ArchiveAfterQuit(r, id, false, false, now);
            && next.agents.order == A.Without(r.agents.order, id)
            && next.archived == if record.Ok? then Filed(r.archived, record.value) else r.archived
  {
    assert A.Close(r.agents, id, false).1;
  }

  lemma SwitchTells(r: RuntimeState, report: Report)
    requires DistinctIds(r.archived) && report.conversation.Some?
    ensures var (next, outcome) := Switch(r, report);
            next.agents == r.agents && outcome.Switched? && next.archived == AfterOutcome(r.archived, outcome)
  {
    RemoveAtIsOthers(r.archived, report.conversation.value);
  }

  ghost predicate Tells(r: RuntimeState, next: RuntimeState, outcome: Outcome) {
    next.agents.order == Kept(r.agents.order, QuitOf(outcome)) && next.archived == AfterOutcome(r.archived, outcome)
  }

  function QuitAs(id: AgentId, record: Result<ArchivedConversation, RuntimeError>): Outcome {
    if record.Ok? then QuitArchived(id, record.value) else QuitRemoved(id)
  }

  lemma KeptOne(order: seq<AgentId>, id: AgentId)
    ensures A.Without(order, id) == Kept(order, {id})
  {
    KeptAll(order);
    KeptWithout(order, {}, id);
    assert {} + {id} == {id};
  }

  lemma QuitOutcome(
    r: RuntimeState, id: AgentId, now: u64, next: RuntimeState, record: Result<ArchivedConversation, RuntimeError>)
    requires KeysAgree(r) && id in r.previous && r.agents.sessions[id].exited
    requires (next, record) == ArchiveAfterQuit(r, id, false, false, now)
    ensures Tells(r, next, QuitAs(id, record))
  {
    QuitTells(r, id, now);
    KeptOne(r.agents.order, id);
  }

  lemma SwitchOutcome(r: RuntimeState, report: Report, now: u64)
    requires DistinctIds(r.archived) && HasSwitched(r, report) && !HasQuit(r, report)
    ensures Tells(r, PollOne(r, report, now).0, PollOne(r, report, now).1)
  {
    SwitchTells(r, report);
    KeptAll(r.agents.order);
  }

  lemma QuietOutcome(r: RuntimeState, report: Report, now: u64)
    requires !HasQuit(r, report) && !HasSwitched(r, report)
    ensures Tells(r, PollOne(r, report, now).0, PollOne(r, report, now).1)
  {
    KeptAll(r.agents.order);
  }

  /** What one polled agent does to the order and the archive is told by its outcome. */
  lemma OutcomeTells(r: RuntimeState, report: Report, now: u64, next: RuntimeState, outcome: Outcome)
    requires KeysAgree(r) && DistinctIds(r.archived) && Truthful(r, report) && report.id in r.previous
    requires (next, outcome) == PollOne(r, report, now)
    ensures Tells(r, next, outcome)
  {
    if HasQuit(r, report) {
      QuitOutcome(r, report.id, now, next, ArchiveAfterQuit(r, report.id, false, false, now).1);
    } else if HasSwitched(r, report) {
      SwitchOutcome(r, report, now);
    } else {
      QuietOutcome(r, report, now);
    }
  }

  // ---------------------------------------------------------------------------------------------
  // The archive after a poll
  // ---------------------------------------------------------------------------------------------

  lemma {:induction false} OutcomesTell(r: RuntimeState, reports: seq<Report>, now: u64)
    requires Inv(r) && AllTruthful(r, reports) && forall i | 0 <= i < |reports| :: reports[i].id in r.previous
    ensures var (end, outcomes) := PollEach(r, reports, now);
            && end.agents.order == Kept(r.agents.order, QuitsOf(outcomes))
            && end.archived == AfterOutcomes(r.archived, outcomes)
    decreases |reports|
  {
    if |reports| == 0 {
      KeptAll(r.agents.order);
    } else {
      var (next, outcome) := PollOne(r, reports[0], now);
      OutcomeTells(r, reports[0], now, next, outcome);
      PollOneKeepsInv(r, reports[0], now);
      RestTruthful(r, reports, now);
      forall i | 0 <= i < |reports[1..]|
        ensures reports[1..][i].id in next.previous
      {
        PollOneSparesRecords(r, reports[0], now, reports[i + 1].id);
      }
      OutcomesTell(next, reports[1..], now);
      var (end, more) := PollEach(next, reports[1..], now);
      assert ([outcome] + more)[1..] == more;
      KeptTwice(r.agents.order, QuitOf(outcome), QuitsOf(more));
    }
  }

  lemma {:induction false} KeptTwice(order: seq<AgentId>, a: set<AgentId>, b: set<AgentId>)
    ensures Kept(Kept(order, a), b) == Kept(order, a + b)
  {
    if |order| > 0 {
      KeptTwice(order[1..], a, b);
      var rest := Kept(order[1..], a);
      assert ([order[0]] + rest)[1..] == rest;
    }
  }

  lemma PollOneSparesRecords(r: RuntimeState, report: Report, now: u64, id: AgentId)
    requires id != report.id && id in r.previous && id in r.drafts
    ensures var next := PollOne(r, report, now).0;
            id in next.previous && id in next.drafts && next.previous[id] == r.previous[id]
              && next.drafts[id] == r.drafts[id]
  {
  }

  /** The client's archive after the events of one kind. */
  lemma {:induction false} HandledArchive(app: AppState, outcomes: seq<Outcome>, kind: nat)
    requires kind < ANY
    ensures HandleAll(app, EventsOf(outcomes, kind)).archived == AfterOutcomes(app.archived, OnlyKind(outcomes, kind))
    decreases |outcomes|
  {
    if |outcomes| > 0 {
      var event, rest := EventOf(outcomes[0], kind), EventsOf(outcomes[1..], kind);
      HandleConcat(app, event, rest);
      var next := HandleAll(app, event);
      HandledArchive(next, outcomes[1..], kind);
      if HasKind(outcomes[0], kind) {
        assert event[1..] == [];
        assert ([outcomes[0]] + OnlyKind(outcomes[1..], kind))[1..] == OnlyKind(outcomes[1..], kind);
        HandledOne(app, outcomes[0], kind);
      } else {
        assert event == [] && [] + OnlyKind(outcomes[1..], kind) == OnlyKind(outcomes[1..], kind);
      }
    }
  }

  lemma HandledOne(app: AppState, outcome: Outcome, kind: nat)
    requires HasKind(outcome, kind) && kind != ANY
    ensures HandleAll(app, EventOf(outcome, kind)).archived == AfterOutcome(app.archived, outcome)
  {
    var event := EventOf(outcome, kind);
    assert event[1..] == [];
    assert HandleAll(app, event) == HandleAll(Handle(app, event[0]), []) == Handle(app, event[0]);
  }

  // ---------------------------------------------------------------------------------------------
  // Mirroring
  // ---------------------------------------------------------------------------------------------

  ghost predicate Mirrors(app: AppState, r: RuntimeState) {
    app.agents == r.agents.order && app.archived == r.archived
  }

  /** The outcomes of a poll. */
  ghost function OutcomesOf(r: RuntimeState, a: Action): seq<Outcome>
    requires a.PollAgents?
  {
    PollEach(r.(agents := A.Poll(r.agents, a.exits)), a.reports, r.state.lastActivity).1
  }

  /** Polls report only agents of the session. */
  ghost predicate Polls(r: RuntimeState, a: Action) {
    a.PollAgents? ==> forall i | 0 <= i < |a.reports| :: a.reports[i].id in r.previous
  }

  lemma PollTellsQuits(outcomes: seq<Outcome>)
    ensures GoneIn(PollEvents(outcomes)) == QuitsOf(outcomes) && NoneAdded(PollEvents(outcomes))
  {
    var archivedQuits, removedQuits, switches := EventsOf(outcomes, 0), EventsOf(outcomes, 1), EventsOf(outcomes, 2);
    EventsTellQuits(outcomes);
    GoneInConcat(archivedQuits + removedQuits, switches);
    GoneInConcat(archivedQuits, removedQuits);
  }

  lemma PollArchive(app: AppState, outcomes: seq<Outcome>)
    ensures HandleAll(app, PollEvents(outcomes)).archived == AfterOutcomes(app.archived, InEventOrder(outcomes))
  {
    var archivedQuits, removedQuits, switches := EventsOf(outcomes, 0), EventsOf(outcomes, 1), EventsOf(outcomes, 2);
    HandleConcat(app, archivedQuits + removedQuits, switches);
    HandleConcat(app, archivedQuits, removedQuits);
    HandledArchive(app, outcomes, 0);
    var first := HandleAll(app, archivedQuits);
    HandledArchive(first, outcomes, 1);
    RemovalsChangeNothing(first.archived, outcomes);
    HandledArchive(HandleAll(first, removedQuits), outcomes, 2);
    AfterInEventOrder(app.archived, outcomes);
  }

  // ---------------------------------------------------------------------------------------------
  // What a poll will do, told from the state before it
  // ---------------------------------------------------------------------------------------------

  function ForetoldOne(r: RuntimeState, archived: seq<ArchivedConversation>, report: Report): Outcome {
    var record := RecordOf(r, report.id);
    if HasQuit(r, report) then if record.Ok? then QuitArchived(report.id, record.value) else QuitRemoved(report.id)
    else if HasSwitched(r, report) then
      Switched(
        report.id,
        if record.Ok? then Some(record.value) else None,
        if IsArchived(archived, report.conversation.value) then report.conversation else None)
    else Quiet
  }

  /** Quits, switches and records are those of the state before the poll; only the archive changes on the way. */
  function Foretold(r: RuntimeState, archived: seq<ArchivedConversation>, reports: seq<Report>): seq<Outcome>
    decreases |reports|
  {
    if |reports| == 0 then []
    else
      var outcome := ForetoldOne(r, archived, reports[0]);
      [outcome] + Foretold(r, AfterOutcome(archived, outcome), reports[1..])
  }

  /** What is known of the reported agents in `s` is what was known in `r`. */
  ghost predicate SameFor(r: RuntimeState, s: RuntimeState, reports: seq<Report>) {
    forall i | 0 <= i < |reports| ::
      var id := reports[i].id;
      && id in s.previous && id in r.previous && s.previous[id] == r.previous[id]
      && id in s.drafts && id in r.drafts && s.drafts[id] == r.drafts[id]
  }

  lemma ForetoldOutcome(r: RuntimeState, s: RuntimeState, report: Report, now: u64)
    requires Inv(s) && Truthful(s, report) && SameFor(r, s, [report])
    ensures PollOne(s, report, now).1 == ForetoldOne(r, s.archived, report)
  {
    assert [report][0] == report;
    assert RecordOf(s, report.id) == RecordOf(r, report.id);
    assert HasQuit(s, report) == HasQuit(r, report) && HasSwitched(s, report) == HasSwitched(r, report);
    if HasQuit(s, report) {
      QuitIsArchived(s, report.id, now);
    } else if HasSwitched(s, report) {
      SwitchReactivates(s, report);
    }
  }

  /** An agent that has quit has exited, and so it always stops. */
  lemma QuitIsArchived(s: RuntimeState, id: AgentId, now: u64)
    requires id in s.previous && id in s.agents.sessions && s.agents.sessions[id].exited
    ensures ArchiveAfterQuit(s, id, false, false, now).1 == RecordOf(s, id)
  {
  }

  lemma SwitchReactivates(s: RuntimeState, report: Report)
    requires report.conversation.Some?
    ensures Switch(s, report).1 == Switched(
              report.id,
              match RecordOf(s, report.id) case Ok(record) => Some(record) case Err(_) => None,
              if IsArchived(s.archived, report.conversation.value) then report.conversation else None)
  {
    var index := Position(s.archived, report.conversation.value);
    if index.Some? {
      assert s.archived[index.value] in s.archived;
    }
  }

  lemma SameForRest(r: RuntimeState, s: RuntimeState, reports: seq<Report>, now: u64)
    requires |reports| > 0 && SameFor(r, s, reports) && AllTruthful(s, reports)
    ensures SameFor(r, PollOne(s, reports[0], now).0, reports[1..]) && SameFor(r, s, [reports[0]])
  {
    var next := PollOne(s, reports[0], now).0;
    forall i | 0 <= i < |reports[1..]|
      ensures var id := reports[1..][i].id;
              id in next.previous && id in next.drafts && next.previous[id] == s.previous[id]
                && next.drafts[id] == s.drafts[id]
    {
      assert reports[1..][i] == reports[i + 1] && reports[i + 1].id != reports[0].id;
      PollOneSparesRecords(s, reports[0], now, reports[i + 1].id);
    }
    assert forall i | 0 <= i < |reports[1..]| :: reports[1..][i] == reports[i + 1];
  }

  lemma {:induction false} PollIsForetold(r: RuntimeState, s: RuntimeState, reports: seq<Report>, now: u64)
    requires Inv(s) && AllTruthful(s, reports) && SameFor(r, s, reports)
    ensures PollEach(s, reports, now).1 == Foretold(r, s.archived, reports)
    decreases |reports|
  {
    if |reports| > 0 {
      SameForRest(r, s, reports, now);
      ForetoldOutcome(r, s, reports[0], now);
      var (next, outcome) := PollOne(s, reports[0], now);
      OutcomeTells(s, reports[0], now, next, outcome);
      PollOneKeepsInv(s, reports[0], now);
      RestTruthful(s, reports, now);
      PollIsForetold(r, next, reports[1..], now);
    }
  }

  /** The poll files the same records last, and in the same order, whether it is told as it happened or quits first. */
  predicate KeepsOrder(r: RuntimeState, reports: seq<Report>) {
    var outcomes := Foretold(r, r.archived, reports);
    LastFiled(InEventOrder(outcomes)) == LastFiled(outcomes)
  }

  predicate QuitFiles(r: RuntimeState, report: Report) {
    HasQuit(r, report) && RecordOf(r, report.id).Ok?
  }

  predicate Switches(r: RuntimeState, report: Report) {
    !HasQuit(r, report) && HasSwitched(r, report)
  }

  predicate SwitchFiles(r: RuntimeState, report: Report) {
    Switches(r, report) && RecordOf(r, report.id).Ok?
  }

  /** The conversations a report may file or take out of the archive. */
  function Concerns(r: RuntimeState, report: Report): set<ConversationId> {
    (if QuitFiles(r, report) || SwitchFiles(r, report) then {RecordOf(r, report.id).value.id} else {})
    + (if Switches(r, report) then {report.conversation.value} else {})
  }

  /** No two of the reports concern the same conversation. */
  ghost predicate NothingShared(r: RuntimeState, reports: seq<Report>) {
    forall i, j | 0 <= i < j < |reports| :: Concerns(r, reports[i]) !! Concerns(r, reports[j])
  }

  lemma {:induction false} ForetoldAt(r: RuntimeState, archived: seq<ArchivedConversation>, reports: seq<Report>)
    ensures |Foretold(r, archived, reports)| == |reports|
    ensures forall i | 0 <= i < |reports| ::
              var outcome := Foretold(r, archived, reports)[i];
              && (outcome.QuitArchived? <==> QuitFiles(r, reports[i]))
              && (outcome.Switched? <==> Switches(r, reports[i]))
              && (FilesBySwitch(outcome) <==> SwitchFiles(r, reports[i]))
              && TouchedBy(outcome) <= Concerns(r, reports[i])
    decreases |reports|
  {
    if |reports| > 0 {
      ForetoldAt(r, AfterOutcome(archived, ForetoldOne(r, archived, reports[0])), reports[1..]);
      assert forall i | 0 < i < |reports| :: reports[i] == reports[1..][i - 1];
    }
  }

  lemma {:induction false} TouchedBySome(outcomes: seq<Outcome>, id: ConversationId)
    requires id in TouchedByAny(outcomes)
    ensures exists j :: 0 <= j < |outcomes| && id in TouchedBy(outcomes[j])
  {
    if id !in TouchedBy(outcomes[0]) {
      TouchedBySome(outcomes[1..], id);
      var j :| 0 <= j < |outcomes[1..]| && id in TouchedBy(outcomes[1..][j]);
      assert outcomes[j + 1] == outcomes[1..][j];
    }
  }

  lemma {:induction false} PairwiseApart(outcomes: seq<Outcome>)
    requires forall i, j | 0 <= i < j < |outcomes| :: TouchedBy(outcomes[i]) !! TouchedBy(outcomes[j])
    ensures Apart(outcomes)
  {
    if |outcomes| > 0 {
      var rest := outcomes[1..];
      assert forall i | 0 <= i < |rest| :: rest[i] == outcomes[i + 1];
      PairwiseApart(rest);
      forall id | id in TouchedByAny(rest)
        ensures id !in TouchedBy(outcomes[0])
      {
        TouchedBySome(rest, id);
      }
    }
  }

  /**
   When no two reports concern the same conversation, a poll keeps the order of the archive exactly if no
   agent whose switch files a conversation is polled before one whose quit files one.
   */
  lemma KeepsOrderExactly(r: RuntimeState, reports: seq<Report>)
    requires NothingShared(r, reports)
    ensures KeepsOrder(r, reports) <==>
            forall i, j | 0 <= i < j < |reports| :: SwitchFiles(r, reports[i]) ==> !QuitFiles(r, reports[j])
  {
    var outcomes := Foretold(r, r.archived, reports);
    ForetoldAt(r, r.archived, reports);
    forall i, j | 0 <= i < j < |outcomes|
      ensures TouchedBy(outcomes[i]) !! TouchedBy(outcomes[j])
    {
      assert Concerns(r, reports[i]) !! Concerns(r, reports[j]);
    }
    PairwiseApart(outcomes);
    ApartExactly(outcomes);
    assert QuitsFileFirst(outcomes) <==>
           forall i, j | 0 <= i < j < |reports| :: SwitchFiles(r, reports[i]) ==> !QuitFiles(r, reports[j]);
  }

  /**
   And whatever they share, exactly if of every conversation that a quit files last the last switch to touch
   it files the same record, and conversations filed later are not those of earlier switches.
   */
  lemma KeepsOrderByPlaces(r: RuntimeState, reports: seq<Report>)
    ensures var outcomes := Foretold(r, r.archived, reports);
            KeepsOrder(r, reports) <==> SwitchesAgree(outcomes) && SwitchesInOrder(outcomes)
  {
    PlacesExactly(Foretold(r, r.archived, reports));
  }

  /** Whatever the reports share, it is enough that nobody whose quit files a conversation is polled after a switch. */
  lemma QuitsFirstKeepsOrder(r: RuntimeState, reports: seq<Report>)
    requires forall i, j | 0 <= i < j < |reports| :: Switches(r, reports[i]) ==> !QuitFiles(r, reports[j])
    ensures KeepsOrder(r, reports)
  {
    ForetoldAt(r, r.archived, reports);
    QuitsFirstSuffices(Foretold(r, r.archived, reports));
  }

  /**
   One poll of any length: after its events the client's agents are the server's, and a client that had
   the server's archive has it again exactly if the poll keeps the order.
   */
  lemma PollMirrors(app: AppState, r: RuntimeState, a: Action)
    requires Inv(r) && a.PollAgents? && Enabled(r, a) && Polls(r, a) && app.agents == r.agents.order
    ensures var after := HandleAll(app, EventsFor(r, a));
            && after.agents == Next(r, a).agents.order
            && (app.archived == r.archived ==> (Mirrors(after, Next(r, a)) <==> KeepsOrder(r, a.reports)))
  {
    var polled := r.(agents := A.Poll(r.agents, a.exits));
    PolledKeepsInv(r, a.exits);
    OutcomesTell(polled, a.reports, r.state.lastActivity);
    PollIsForetold(r, polled, a.reports, r.state.lastActivity);
    var outcomes := OutcomesOf(r, a);
    PollTellsQuits(outcomes);
    HandledAgents(app, PollEvents(outcomes));
    PollArchive(app, outcomes);
    EventOrderExactly(app.archived, outcomes);
  }

  lemma HandleOnly(app: AppState, e: Event)
    ensures HandleAll(app, [e]) == Handle(app, e)
  {
    assert HandleAll(Handle(app, e), []) == Handle(app, e);
  }

  lemma AddedMirrors(
    app: AppState, r: RuntimeState, kind: AgentKind, launch: Directory, reported: Option<ConversationId>,
    starts: bool, now: u64)
    requires app.agents == r.agents.order
    ensures var (next, id) := Spawn(r, kind, launch, reported, starts, now);
            && next.archived == r.archived
            && (id.Ok? ==> HandleAll(app, [AgentAdded(id.value)]) == Add(app, id.value))
            && (id.Ok? ==> Add(app, id.value).agents == next.agents.order)
            && (id.Err? ==> r.agents.order == next.agents.order)
  {
    var id := Spawn(r, kind, launch, reported, starts, now).1;
    if id.Ok? {
      HandleOnly(app, AgentAdded(id.value));
    }
  }

  lemma ResumedMirrors(
    app: AppState, r: RuntimeState, conversation: ConversationId, reported: Option<ConversationId>, starts: bool,
    now: u64)
    requires app.agents == r.agents.order && DistinctIds(r.archived)
    ensures var (next, id) := ResumeArchived(r, conversation, reported, starts, now);
            && (id.Ok? ==>
               HandleAll(app, [ArchivedResumed(conversation, id.value)]) == Resume(app, conversation, id.value))
            && (id.Ok? ==> Resume(app, conversation, id.value).agents == next.agents.order)
            && (id.Ok? && app.archived == r.archived ==> Resume(app, conversation, id.value).archived == next.archived)
            && (id.Err? ==> r.agents.order == next.agents.order && next.archived == r.archived)
  {
    RemoveAtIsOthers(r.archived, conversation);
    var id := ResumeArchived(r, conversation, reported, starts, now).1;
    if id.Ok? {
      HandleOnly(app, ArchivedResumed(conversation, id.value));
    }
  }

  lemma RemovedMirrors(app: AppState, r: RuntimeState, id: AgentId, dies: bool, now: u64)
    requires A.Ascending(r.agents.order) && app.agents == r.agents.order && id in r.agents.sessions
    ensures var (next, ok) := Close(r, id, dies, now);
            && next.archived == r.archived && (!ok ==> next == r)
            && HandleAll(app, [AgentRemoved(id)]) == Remove(app, id)
            && (ok ==> Remove(app, id).agents == next.agents.order && Remove(app, id).archived == app.archived)
  {
    RemoveIsWithout(app, id);
    HandleOnly(app, AgentRemoved(id));
  }

  lemma ArchivedMirrors(app: AppState, r: RuntimeState, id: AgentId, dies: bool, now: u64)
    requires A.Ascending(r.agents.order) && app.agents == r.agents.order && r.previous.Keys == r.agents.sessions.Keys
    ensures var (next, record) := Archive(r, id, dies, now);
            && (record.Err? ==> next == r)
            && (record.Ok? ==>
               HandleAll(app, [AgentArchived(id, record.value)]) == ArchiveRemote(app, id, record.value))
            && (record.Ok? ==> ArchiveRemote(app, id, record.value).agents == next.agents.order)
            && (record.Ok? && app.archived == r.archived ==>
               ArchiveRemote(app, id, record.value).archived == next.archived)
  {
    if RecordOf(r, id).Ok? {
      RemovedMirrors(app, r, id, dies, now);
      HandleOnly(app, AgentArchived(id, RecordOf(r, id).value));
    }
  }

  /** The one kind of step after which the archives differ. */
  ghost predicate Separates(r: RuntimeState, a: Action) {
    a.PollAgents? && Enabled(r, a) && !KeepsOrder(r, a.reports)
  }

  /**
   One step: the client's agents are the server's again, and so is its archive exactly if the step does not
   separate them.
   */
  lemma StepMirrors(app: AppState, r: RuntimeState, a: Action)
    requires Inv(r) && Polls(r, a) && app.agents == r.agents.order
    ensures var after := HandleAll(app, EventsFor(r, a));
            && after.agents == Next(r, a).agents.order
            && (app.archived == r.archived ==> (Mirrors(after, Next(r, a)) <==> !Separates(r, a)))
  {
    if Enabled(r, a) {
      match a {
        case SpawnAgent(kind, launch, reported, starts, now) =>
          AddedMirrors(app, r, kind, launch, reported, starts, now);
        case CloseAgent(agent, dies, now) =>
          if agent in r.agents.sessions {
            RemovedMirrors(app, r, agent, dies, now);
          }
        case ArchiveAgent(agent, dies, now) =>
          ArchivedMirrors(app, r, agent, dies, now);
        case ResumeAgent(conversation, reported, starts, now) =>
          ResumedMirrors(app, r, conversation, reported, starts, now);
        case PollAgents(_, _) => PollMirrors(app, r, a);
        case Type(_, _) =>
        case Select(_, _) =>
      }
    }
  }

  // ---------------------------------------------------------------------------------------------
  // A quit after a switch
  // ---------------------------------------------------------------------------------------------

  lemma {:induction false} OthersOfOthers(archived: seq<ArchivedConversation>, a: ConversationId, b: ConversationId)
    ensures Others(Others(archived, a), b) == Others(Others(archived, b), a)
    ensures a == b ==> Others(Others(archived, a), b) == Others(archived, a)
  {
    if |archived| > 0 {
      OthersOfOthers(archived[1..], a, b);
      OthersOfFirst(archived[0], Others(archived[1..], a), b);
      OthersOfFirst(archived[0], Others(archived[1..], b), a);
    }
  }

  lemma OthersOfFirst(record: ArchivedConversation, rest: seq<ArchivedConversation>, id: ConversationId)
    ensures Others([record] + rest, id) == if record.id == id then Others(rest, id) else [record] + Others(rest, id)
  {
    assert ([record] + rest)[1..] == rest;
  }

  /**
   When one agent switches and a later one quits in the same poll, the client still ends with the
   server's archive exactly if the switch files the very record the quit files, or files none and
   does not take the quit conversation out of the archive.
   */
  lemma QuitAfterSwitch(app: AppState, switch: Outcome, quit: Outcome)
    requires switch.Switched? && quit.QuitArchived?
    requires switch.archived.Some? ==> switch.reactivated != Some(switch.archived.value.id)
    ensures var outcomes := [switch, quit];
            HandleAll(app, PollEvents(outcomes)).archived == AfterOutcomes(app.archived, outcomes) <==>
            if switch.archived.Some? then switch.archived == Some(quit.record)
            else switch.reactivated != Some(quit.record.id)
  {
    TwoOutcomes(app, switch, quit);
    if switch.archived.None? {
      SwitchFilesNothing(app.archived, quit.record, switch.reactivated);
    } else if switch.archived == Some(quit.record) {
      SwitchFilesSame(app.archived, quit.record, switch.reactivated);
    } else {
      SwitchFilesOther(app.archived, quit.record, switch.archived.value, switch.reactivated);
    }
  }

  lemma SwitchFilesOther(
    archived: seq<ArchivedConversation>, q: ArchivedConversation, other: ArchivedConversation,
    reactivated: Option<ConversationId>)
    requires q != other
    ensures SwitchArchive(Filed(archived, q), Some(other), reactivated)
         != Filed(SwitchArchive(archived, Some(other), reactivated), q)
  {
    assert SwitchArchive(Filed(archived, q), Some(other), reactivated)[0] == other;
    assert Filed(SwitchArchive(archived, Some(other), reactivated), q)[0] == q;
  }

  lemma SwitchFilesNothing(
    archived: seq<ArchivedConversation>, q: ArchivedConversation, reactivated: Option<ConversationId>)
    ensures SwitchArchive(Filed(archived, q), None, reactivated) == Filed(SwitchArchive(archived, None, reactivated), q)
            <==> reactivated != Some(q.id)
  {
    if reactivated.Some? {
      if reactivated.value == q.id {
        OthersOfFirst(q, Others(archived, q.id), q.id);
        OthersOfOthers(archived, q.id, q.id);
      } else {
        FiledAround(archived, q, reactivated.value);
      }
    }
  }

  lemma SwitchFilesSame(
    archived: seq<ArchivedConversation>, q: ArchivedConversation, reactivated: Option<ConversationId>)
    requires reactivated != Some(q.id)
    ensures SwitchArchive(Filed(archived, q), Some(q), reactivated) ==
            Filed(SwitchArchive(archived, Some(q), reactivated), q)
  {
    if reactivated.None? {
    } else {
      FiledAround(archived, q, reactivated.value);
      FiledTwice(Others(archived, reactivated.value), q);
    }
  }

  /** Filing one record and taking out another can be done in either order. */
  lemma FiledAround(archived: seq<ArchivedConversation>, q: ArchivedConversation, id: ConversationId)
    requires id != q.id
    ensures Others(Filed(archived, q), id) == Filed(Others(archived, id), q)
  {
    OthersOfFirst(q, Others(archived, q.id), id);
    OthersOfOthers(archived, q.id, id);
  }

  lemma FiledTwice(archived: seq<ArchivedConversation>, q: ArchivedConversation)
    ensures Filed(Filed(archived, q), q) == Filed(archived, q)
  {
    OthersOfFirst(q, Others(archived, q.id), q.id);
    OthersOfOthers(archived, q.id, q.id);
  }

  lemma TwoOutcomes(app: AppState, switch: Outcome, quit: Outcome)
    requires switch.Switched? && quit.QuitArchived?
    ensures HandleAll(app, PollEvents([switch, quit])).archived
         == SwitchArchive(Filed(app.archived, quit.record), switch.archived, switch.reactivated)
    ensures AfterOutcomes(app.archived, [switch, quit])
         == Filed(SwitchArchive(app.archived, switch.archived, switch.reactivated), quit.record)
  {
    var outcomes := [switch, quit];
    PollArchive(app, outcomes);
    AfterInEventOrder(app.archived, outcomes);
    assert outcomes[1..] == [quit] && [quit][1..] == [] && [switch][1..] == [];
    assert OnlyKind([quit], 0) == [quit] + OnlyKind([], 0) && OnlyKind([quit], 2) == [] + OnlyKind([], 2);
    assert OnlyKind(outcomes, 0) == [] + OnlyKind([quit], 0) == [quit];
    assert OnlyKind(outcomes, 2) == [switch] + OnlyKind([quit], 2) == [switch];
    AfterOne(app.archived, quit);
    AfterOne(Filed(app.archived, quit.record), switch);
    AfterOne(AfterOutcome(app.archived, switch), quit);
  }

  lemma AfterOne(archived: seq<ArchivedConversation>, outcome: Outcome)
    ensures AfterOutcomes(archived, [outcome]) == AfterOutcome(archived, outcome)
  {
    assert AfterOutcomes(AfterOutcome(archived, outcome), []) == AfterOutcome(archived, outcome);
  }

  /**
   The same told from the state before the poll, when the first report is of a switch and the second of a
   quit that is archived.
   */
  lemma SwitchThenQuit(r: RuntimeState, switched: Report, quit: Report)
    requires Switches(r, switched) && QuitFiles(r, quit)
    ensures KeepsOrder(r, [switched, quit]) <==>
            if SwitchFiles(r, switched) then RecordOf(r, switched.id) == RecordOf(r, quit.id)
            else
              || switched.conversation != r.previous[quit.id].conversation
              || !IsArchived(r.archived, switched.conversation.value)
  {
    var app := AppState(r.agents.order, r.archived, 0);
    var reports := [switched, quit];
    var first := ForetoldOne(r, r.archived, switched);
    var second := ForetoldOne(r, AfterOutcome(r.archived, first), quit);
    assert reports[1..] == [quit] && [quit][1..] == [];
    assert Foretold(r, AfterOutcome(r.archived, first), [quit]) == [second];
    assert Foretold(r, r.archived, reports) == [first, second];
    PollArchive(app, [first, second]);
    EventOrderExactly(app.archived, [first, second]);
    QuitAfterSwitch(app, first, second);
  }
}
