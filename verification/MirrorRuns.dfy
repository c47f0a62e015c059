/**
 Clients that attach at any time in the life of a session, and how long their lists stay those of the
 server: for the agents always, for the archive until the first poll that does not keep its order.
 */
module MirrorRuns {
  import opened Basics
  import opened Frames
  import opened SessionRuntime
  import opened Conversations
  import opened FilingOrder
  import opened Mirror
  import A = Agents

  /** Everything the server sends from step `k` up to step `n`. */
  ghost function Sent(states: seq<RuntimeState>, actions: seq<Action>, k: nat, n: nat): seq<Event>
    requires k <= n <= |actions| && |states| == |actions| + 1
  {
    if n == k then [] else Sent(states, actions, k, n - 1) + EventsFor(states[n - 1], actions[n - 1])
  }

  /**
   A client that attached in state `k`, starting from the snapshot it was sent then, after the events up to
   step `n`.
   */
  ghost function ClientAt(states: seq<RuntimeState>, actions: seq<Action>, k: nat, n: nat): AppState
    requires k <= n <= |actions| && |states| == |actions| + 1
  {
    HandleAll(AppState(states[k].agents.order, states[k].archived, 0), Sent(states, actions, k, n))
  }

  lemma ClientSteps(states: seq<RuntimeState>, actions: seq<Action>, k: nat, m: nat, n: nat)
    requires IsRun(states, actions) && k <= m < n <= |actions| && m + 1 == n
    ensures ClientAt(states, actions, k, n) ==
            HandleAll(ClientAt(states, actions, k, m), EventsFor(states[m], actions[m]))
    ensures states[n] == Next(states[m], actions[m])
  {
    var start := AppState(states[k].agents.order, states[k].archived, 0);
    HandleConcat(start, Sent(states, actions, k, m), EventsFor(states[m], actions[m]));
  }

  ghost predicate MirrorsAt(states: seq<RuntimeState>, actions: seq<Action>, k: nat, n: nat)
    requires k <= n <= |actions| && |states| == |actions| + 1
  {
    Mirrors(ClientAt(states, actions, k, n), states[n])
  }

  ghost predicate AlwaysMirrors(states: seq<RuntimeState>, actions: seq<Action>, k: nat, n: nat)
    requires k <= n <= |actions| && |states| == |actions| + 1
  {
    forall i | k <= i <= n :: MirrorsAt(states, actions, k, i)
  }

  ghost predicate NeverSeparates(states: seq<RuntimeState>, actions: seq<Action>, k: nat, n: nat)
    requires k <= n <= |actions| && |states| == |actions| + 1
  {
    forall i | k <= i < n :: !Separates(states[i], actions[i])
  }

  lemma AlwaysAndNow(states: seq<RuntimeState>, actions: seq<Action>, k: nat, m: nat, n: nat)
    requires k <= m < n <= |actions| && |states| == |actions| + 1 && m + 1 == n
    ensures AlwaysMirrors(states, actions, k, n) <==>
            AlwaysMirrors(states, actions, k, m) && MirrorsAt(states, actions, k, n)
  {
    if AlwaysMirrors(states, actions, k, m) && MirrorsAt(states, actions, k, n) {
      forall i | k <= i <= n
        ensures MirrorsAt(states, actions, k, i)
      {
        assert i == n || i <= m;
      }
    }
    if AlwaysMirrors(states, actions, k, n) {
      forall i | k <= i <= m
        ensures MirrorsAt(states, actions, k, i)
      {
        assert i <= n;
      }
      assert n <= n && MirrorsAt(states, actions, k, n);
    }
  }

  lemma NeverAndNow(states: seq<RuntimeState>, actions: seq<Action>, k: nat, m: nat, n: nat)
    requires k <= m < n <= |actions| && |states| == |actions| + 1 && m + 1 == n
    ensures NeverSeparates(states, actions, k, n) <==>
            NeverSeparates(states, actions, k, m) && !Separates(states[m], actions[m])
  {
  }

  /**
   Main result: a client may attach in any state of a run, and handle at whatever time, but in order, all
   that is sent from then on. Its agents are always the server's. Its archive has been the server's all
   along exactly if no step since it attached was a poll that does not keep the order.
   */
  lemma {:induction false} ClientMirrors(states: seq<RuntimeState>, actions: seq<Action>, k: nat, n: nat)
    requires IsRun(states, actions) && k <= n <= |actions| && forall i | k <= i < n :: Polls(states[i], actions[i])
    ensures ClientAt(states, actions, k, n).agents == states[n].agents.order
    ensures AlwaysMirrors(states, actions, k, n) <==> NeverSeparates(states, actions, k, n)
    decreases n
  {
    if n > k {
      var m := n - 1;
      ClientMirrors(states, actions, k, m);
      RunKeepsInv(states, actions, m);
      ClientSteps(states, actions, k, m, n);
      StepMirrors(ClientAt(states, actions, k, m), states[m], actions[m]);
      AlwaysAndNow(states, actions, k, m, n);
      NeverAndNow(states, actions, k, m, n);
      assert AlwaysMirrors(states, actions, k, m) ==> MirrorsAt(states, actions, k, m);
    } else {
      assert MirrorsAt(states, actions, k, k);
    }
  }

  // ---------------------------------------------------------------------------------------------
  // A run that separates the two archives
  // ---------------------------------------------------------------------------------------------

  ghost predicate Quiet(r: RuntimeState, a: Action) {
    Polls(r, a) && !Separates(r, a)
  }

  /** No step of the run has separated the archives. */
  ghost predicate QuietSoFar(states: seq<RuntimeState>, actions: seq<Action>)
    requires |states| == |actions| + 1
  {
    forall i | 0 <= i < |actions| :: Quiet(states[i], actions[i])
  }

  lemma Extend(states: seq<RuntimeState>, actions: seq<Action>, a: Action)
    returns (states': seq<RuntimeState>, actions': seq<Action>)
    requires IsRun(states, actions) && QuietSoFar(states, actions) && Quiet(states[|actions|], a)
    ensures IsRun(states', actions') && QuietSoFar(states', actions') && actions' == actions + [a]
    ensures states'[0] == states[0] && states'[|actions'|] == Next(states[|actions|], a)
  {
    states', actions' := states + [Next(states[|actions|], a)], actions + [a];
    forall i | 0 <= i < |actions'|
      ensures Quiet(states'[i], actions'[i])
    {
      assert states'[i] == states[i] && (i < |actions| ==> actions'[i] == actions[i]);
    }
  }

  /** Two running agents, known by what was last seen of them and drafted for them. */
  ghost predicate Pair(r: RuntimeState, seen: ObservedAgent, other: ObservedAgent, drafts: (InputDraft, InputDraft)) {
    && r.previous == map[1 := seen, 2 := other] && r.archived == []
    && r.drafts == map[1 := drafts.0, 2 := drafts.1]
    && r.agents.sessions.Keys == {1, 2} && !r.agents.sessions[1].exited && !r.agents.sessions[2].exited
  }

  lemma TwoStarted(r: RuntimeState, kind: AgentKind, launch: Directory, a: ConversationId, b: ConversationId, now: u64)
    returns (states: seq<RuntimeState>, actions: seq<Action>)
    requires Initial(r) && r.archived == [] && r.agents.nextId == Some(1)
    ensures IsRun(states, actions) && QuietSoFar(states, actions) && |actions| == 2 && states[0] == r
    ensures Pair(
              states[2], ObservedAgent(kind, launch, Some(a), false, None),
              ObservedAgent(kind, launch, Some(b), false, None),
              (EMPTY_DRAFT, EMPTY_DRAFT))
  {
    states, actions := [r], [];
    states, actions := Extend(states, actions, SpawnAgent(kind, launch, Some(a), true, now));
    states, actions := Extend(states, actions, SpawnAgent(kind, launch, Some(b), true, now));
  }

  lemma TwoDrafted(
    r: RuntimeState, kind: AgentKind, launch: Directory, a: ConversationId, b: ConversationId, x: Title, y: Title,
    now: u64)
    returns (states: seq<RuntimeState>, actions: seq<Action>)
    requires Initial(r) && r.archived == [] && r.agents.nextId == Some(1)
    ensures IsRun(states, actions) && QuietSoFar(states, actions) && |actions| == 4 && states[0] == r
    ensures Pair(
              states[4], ObservedAgent(kind, launch, Some(a), false, None),
              ObservedAgent(kind, launch, Some(b), false, None),
              (InputDraft(Some(x), false), InputDraft(Some(y), false)))
  {
    states, actions := TwoStarted(r, kind, launch, a, b, now);
    states, actions := Extend(states, actions, Type(1, InputDraft(Some(x), false)));
    states, actions := Extend(states, actions, Type(2, InputDraft(Some(y), false)));
  }

  /** They are given names, which a poll sees, and the second is told to quit. */
  lemma TwoNamed(
    r: RuntimeState, kind: AgentKind, launch: Directory, a: ConversationId, b: ConversationId, x: Title, y: Title,
    now: u64)
    returns (states: seq<RuntimeState>, actions: seq<Action>)
    requires Initial(r) && r.archived == [] && r.agents.nextId == Some(1)
    ensures IsRun(states, actions) && QuietSoFar(states, actions) && |actions| == 6 && states[0] == r
    ensures Pair(
              states[6], ObservedAgent(kind, launch, Some(a), false, Some(x)),
              ObservedAgent(kind, launch, Some(b), false, Some(y)),
              (InputDraft(Some(x), false), InputDraft(Some(y), true)))
  {
    states, actions := TwoDrafted(r, kind, launch, a, b, x, y, now);
    var reports := [Report(1, Some(a), false, None), Report(2, Some(b), false, None)];
    var drafted := states[4];
    PollSeesNames(drafted, kind, launch, a, b, x, y, reports);
    SeeingNamesIsQuiet(drafted, kind, launch, a, b, x, y, reports);
    states, actions := Extend(states, actions, PollAgents({}, reports));
    var named := Next(drafted, PollAgents({}, reports));
    TypeQuit(
      named, ObservedAgent(kind, launch, Some(a), false, Some(x)), ObservedAgent(kind, launch, Some(b), false, Some(y)),
      InputDraft(Some(x), false), InputDraft(Some(y), false));
    states, actions := Extend(states, actions, Type(2, InputDraft(Some(y), true)));
  }

  lemma TypeQuit(r: RuntimeState, seen: ObservedAgent, other: ObservedAgent, draft: InputDraft, last: InputDraft)
    requires Pair(r, seen, other, (draft, last)) && last.title.Some?
    ensures Pair(Next(r, Type(2, last.(quitRequested := true))), seen, other, (draft, last.(quitRequested := true)))
  {
  }

  lemma TwoPolled(r: RuntimeState, first: Report, second: Report, now: u64)
    requires !HasQuit(r, first) && !HasSwitched(r, first) && first.id != second.id
    requires !HasQuit(r, second) && !HasSwitched(r, second)
    ensures PollEach(r, [first, second], now).0 == Observe(Observe(r, first), second)
  {
    var next, end := Observe(r, first), Observe(Observe(r, first), second);
    assert [first, second][1..] == [second] && [second][1..] == [];
    assert PollEach(end, [], now).0 == end;
    assert PollOne(next, second, now).0 == end;
    assert PollEach(next, [second], now).0 == end;
  }

  lemma BothObserved(
    r: RuntimeState, kind: AgentKind, launch: Directory, a: ConversationId, b: ConversationId, x: Title, y: Title,
    reports: seq<Report>)
    requires Pair(
               r, ObservedAgent(kind, launch, Some(a), false, None), ObservedAgent(kind, launch, Some(b), false, None),
               (InputDraft(Some(x), false), InputDraft(Some(y), false)))
    requires reports == [Report(1, Some(a), false, None), Report(2, Some(b), false, None)]
    ensures Pair(
              Observe(Observe(r, reports[0]), reports[1]),
              ObservedAgent(kind, launch, Some(a), false, Some(x)),
              ObservedAgent(kind, launch, Some(b), false, Some(y)),
              (InputDraft(Some(x), false), InputDraft(Some(y), false)))
  {
  }

  lemma BothTruthful(
    r: RuntimeState, kind: AgentKind, launch: Directory, a: ConversationId, b: ConversationId, x: Title, y: Title,
    reports: seq<Report>)
    requires Pair(
               r, ObservedAgent(kind, launch, Some(a), false, None), ObservedAgent(kind, launch, Some(b), false, None),
               (InputDraft(Some(x), false), InputDraft(Some(y), false)))
    requires reports == [Report(1, Some(a), false, None), Report(2, Some(b), false, None)]
    ensures Enabled(r, PollAgents({}, reports))
  {
  }

  lemma PollSeesNames(
    r: RuntimeState, kind: AgentKind, launch: Directory, a: ConversationId, b: ConversationId, x: Title, y: Title,
    reports: seq<Report>)
    requires Pair(
               r, ObservedAgent(kind, launch, Some(a), false, None), ObservedAgent(kind, launch, Some(b), false, None),
               (InputDraft(Some(x), false), InputDraft(Some(y), false)))
    requires reports == [Report(1, Some(a), false, None), Report(2, Some(b), false, None)]
    ensures Pair(
              Next(r, PollAgents({}, reports)),
              ObservedAgent(kind, launch, Some(a), false, Some(x)),
              ObservedAgent(kind, launch, Some(b), false, Some(y)),
              (InputDraft(Some(x), false), InputDraft(Some(y), false)))
  {
    var polled := r.(agents := A.Poll(r.agents, {}));
    BothTruthful(r, kind, launch, a, b, x, y, reports);
    BothObserved(polled, kind, launch, a, b, x, y, reports);
    TwoPolled(polled, reports[0], reports[1], r.state.lastActivity);
  }

  lemma SeeingNamesIsQuiet(
    r: RuntimeState, kind: AgentKind, launch: Directory, a: ConversationId, b: ConversationId, x: Title, y: Title,
    reports: seq<Report>)
    requires Pair(
               r, ObservedAgent(kind, launch, Some(a), false, None), ObservedAgent(kind, launch, Some(b), false, None),
               (InputDraft(Some(x), false), InputDraft(Some(y), false)))
    requires reports == [Report(1, Some(a), false, None), Report(2, Some(b), false, None)]
    ensures Quiet(r, PollAgents({}, reports))
  {
    QuitsFirstKeepsOrder(r, reports);
  }

  lemma ForetoldPair(
    r: RuntimeState, kind: AgentKind, launch: Directory, a: ConversationId, b: ConversationId, c: ConversationId,
    x: Title, y: Title, reports: seq<Report>)
    requires a != c
    requires Pair(
               r, ObservedAgent(kind, launch, Some(a), false, Some(x)),
               ObservedAgent(kind, launch, Some(b), false, Some(y)),
               (InputDraft(Some(x), false), InputDraft(Some(y), true)))
    requires reports == [Report(1, Some(c), false, None), Report(2, Some(b), true, None)]
    ensures Foretold(r, [], reports) ==
            [Switched(1, Some(ArchivedConversation(a, x, kind, launch)), None),
              QuitArchived(2, ArchivedConversation(b, y, kind, launch))]
  {
    var left, quit := ArchivedConversation(a, x, kind, launch), ArchivedConversation(b, y, kind, launch);
    var archived := AfterOutcome([], Switched(1, Some(left), None));
    assert reports[1..] == [reports[1]] && [reports[1]][1..] == [];
    assert Foretold(r, archived, [reports[1]]) ==
      [QuitArchived(2, quit)] + Foretold(r, AfterOutcome(archived, QuitArchived(2, quit)), []);
  }

  lemma SeparatingPoll(
    r: RuntimeState, kind: AgentKind, launch: Directory, a: ConversationId, b: ConversationId, c: ConversationId,
    x: Title, y: Title, reports: seq<Report>)
    requires a != c && Inv(r)
    requires Pair(
               r, ObservedAgent(kind, launch, Some(a), false, Some(x)),
               ObservedAgent(kind, launch, Some(b), false, Some(y)),
               (InputDraft(Some(x), false), InputDraft(Some(y), true)))
    requires reports == [Report(1, Some(c), false, None), Report(2, Some(b), true, None)]
    ensures Enabled(r, PollAgents({2}, reports)) && Polls(r, PollAgents({2}, reports))
    ensures OutcomesOf(r, PollAgents({2}, reports)) ==
            [Switched(1, Some(ArchivedConversation(a, x, kind, launch)), None),
              QuitArchived(2, ArchivedConversation(b, y, kind, launch))]
    ensures Next(r, PollAgents({2}, reports)).archived == AfterOutcomes([], OutcomesOf(r, PollAgents({2}, reports)))
  {
    var polled := r.(agents := A.Poll(r.agents, {2}));
    ForetoldPair(r, kind, launch, a, b, c, x, y, reports);
    PolledKeepsInv(r, {2});
    PollIsForetold(r, polled, reports, r.state.lastActivity);
    OutcomesTell(polled, reports, r.state.lastActivity);
  }

  lemma TwoRecords(left: ArchivedConversation, quit: ArchivedConversation)
    requires left.id != quit.id
    ensures Filed(Filed([], left), quit) == [quit, left]
  {
    assert Others([left], quit.id) == [left] + Others([left][1..], quit.id) == [left];
  }

  /** Both orders, for any client that had the server's archive. */
  lemma SeparatedArchives(app: AppState, left: ArchivedConversation, quit: ArchivedConversation)
    requires app.archived == [] && left.id != quit.id
    ensures var outcomes := [Switched(1, Some(left), None), QuitArchived(2, quit)];
            && AfterOutcomes([], outcomes) == [quit, left]
            && HandleAll(app, PollEvents(outcomes)).archived == [left, quit]
  {
    TwoOutcomes(app, Switched(1, Some(left), None), QuitArchived(2, quit));
    TwoRecords(left, quit);
    TwoRecords(quit, left);
  }

  ghost predicate QuietUpTo(states: seq<RuntimeState>, actions: seq<Action>, n: nat)
    requires n <= |actions| && |states| == |actions| + 1
  {
    forall i | 0 <= i < n :: Quiet(states[i], actions[i])
  }

  lemma PollAtEnd(states: seq<RuntimeState>, actions: seq<Action>, a: Action)
    returns (states': seq<RuntimeState>, actions': seq<Action>)
    requires IsRun(states, actions) && QuietSoFar(states, actions) && Polls(states[|actions|], a)
    ensures IsRun(states', actions') && actions' == actions + [a] && QuietUpTo(states', actions', |actions|)
    ensures states'[0] == states[0] && states'[|actions|] == states[|actions|]
            && states'[|actions'|] == Next(states[|actions|], a)
  {
    states', actions' := states + [Next(states[|actions|], a)], actions + [a];
    forall i | 0 <= i < |actions|
      ensures Quiet(states'[i], actions'[i])
    {
      assert states'[i] == states[i] && actions'[i] == actions[i];
    }
  }

  lemma AttachedBefore(states: seq<RuntimeState>, actions: seq<Action>, k: nat, m: nat, n: nat)
    requires IsRun(states, actions) && k <= m < n <= |actions| && m + 1 == n && QuietUpTo(states, actions, m)
    ensures ClientAt(states, actions, k, m).archived == states[m].archived
    ensures ClientAt(states, actions, k, n) ==
            HandleAll(ClientAt(states, actions, k, m), EventsFor(states[m], actions[m]))
  {
    ClientMirrors(states, actions, k, m);
    ClientSteps(states, actions, k, m, n);
    assert MirrorsAt(states, actions, k, m);
  }

  /**
   Such a poll happens, in a session of any kind of agent: the first agent switches to another conversation
   while the second, told to quit, exits. The server files the quit conversation last; whenever a client
   attached before the poll, it ends with the two the other way round.
   */
  lemma PollSeparates(
    r: RuntimeState, kind: AgentKind, launch: Directory, a: ConversationId, b: ConversationId, c: ConversationId,
    x: Title, y: Title, now: u64)
    returns (states: seq<RuntimeState>, actions: seq<Action>)
    requires Initial(r) && r.archived == [] && r.agents.nextId == Some(1) && a != b && a != c
    ensures IsRun(states, actions) && |actions| == 7 && states[0] == r && actions[6].PollAgents?
    ensures QuietUpTo(states, actions, 6) && Polls(states[6], actions[6])
    ensures var left, quit := ArchivedConversation(a, x, kind, launch), ArchivedConversation(b, y, kind, launch);
            && states[7].archived == [quit, left]
            && forall k: nat | k <= 6 :: ClientAt(states, actions, k, 7).archived == [left, quit]
  {
    states, actions := TwoNamed(r, kind, launch, a, b, x, y, now);
    var reports := [Report(1, Some(c), false, None), Report(2, Some(b), true, None)];
    var poll := PollAgents({2}, reports);
    RunKeepsInv(states, actions, 6);
    SeparatingPoll(states[6], kind, launch, a, b, c, x, y, reports);
    states, actions := PollAtEnd(states, actions, poll);
    var left, quit := ArchivedConversation(a, x, kind, launch), ArchivedConversation(b, y, kind, launch);
    SeparatedArchives(AppState([], [], 0), left, quit);
    forall k: nat | k <= 6
      ensures ClientAt(states, actions, k, 7).archived == [left, quit]
    {
      AttachedBefore(states, actions, k, 6, 7);
      SeparatedArchives(ClientAt(states, actions, k, 6), left, quit);
    }
  }
}
