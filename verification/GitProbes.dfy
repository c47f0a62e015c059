/**
 Which git branch each agent is shown on. One worker probes directories, one at a time; agents move,
 close and share directories while it runs. Whatever is shown for an agent came from a probe of exactly
 the directory recorded beside it.
 */
module GitProbes {
  import opened Basics
  import opened Frames
  import A = Agents

  type Directory = string

  datatype GitContext = GitContext(
    branch: string, worktree: Directory, linked: bool, additions: u64, deletions: u64, ahead: Option<u64>,
    behind: Option<u64>)

  /** The part of what the server last observed of an agent that git touches. */
  datatype Observed = Observed(launch: Directory, working: Option<Directory>, git: Option<GitContext>)

  datatype Cached = Cached(checkedAt: nat, context: Option<GitContext>)

  datatype Probe = Probe(agent: AgentId, working: Option<Directory>, directory: Directory)

  datatype ContextResult = ContextResult(directory: Directory, context: Option<GitContext>)

  /** The worker thread between its two channels, each of which holds one item. */
  datatype Worker = Worker(requests: Option<Directory>, running: Option<Directory>, results: Option<ContextResult>)

  const IDLE := Worker(None, None, None)

  datatype GitState = GitState(
    order: seq<AgentId>,
    selected: Option<AgentId>,
    previous: map<AgentId, Observed>,
    checked: map<AgentId, nat>,
    cache: map<Directory, Cached>,
    inFlight: Option<Probe>,
    worker: Worker)

  function OrLaunch(working: Option<Directory>, launch: Directory): Directory {
    if working.Some? then working.value else launch
  }

  /** The directory an agent is recorded to stand in. */
  function Standing(o: Observed): Directory {
    OrLaunch(o.working, o.launch)
  }

  function Live(previous: map<AgentId, Observed>, cwd: map<AgentId, Directory>, agent: AgentId): Option<Directory> {
    if agent in previous && agent in cwd then Some(cwd[agent]) else None
  }

  /** `duration_since`, which is zero for a later moment. */
  function Elapsed(now: nat, since: nat): nat {
    if now < since then 0 else now - since
  }

  function Interval(selected: bool): nat {
    if selected then 1000 else 5000
  }

  // ---------------------------------------------------------------------------------------------
  // A result arrives
  // ---------------------------------------------------------------------------------------------

  function Observe(s: GitState, agent: AgentId, working: Option<Directory>, cached: Cached): GitState {
    if agent !in s.previous then s
    else
      s.(previous := s.previous[agent := s.previous[agent].(working := working, git := cached.context)],
         checked := s.checked[agent := cached.checkedAt])
  }

  /** The agent the probe was for gets the answer if it is still where it was, and loses its old one if it moved. */
  function AnswerProbed(s: GitState, probe: Probe, current: Option<Directory>, cached: Cached): GitState {
    if current == probe.working then Observe(s, probe.agent, probe.working, cached)
    else
      s.(previous :=
           if probe.agent in s.previous then
             s.previous[probe.agent := s.previous[probe.agent].(working := current, git := None)]
           else s.previous,
         checked := s.checked - {probe.agent})
  }

  /** The other agents in the probed directory. */
  function Sharers(s: GitState, probe: Probe): set<AgentId> {
    set agent | agent in s.previous && agent != probe.agent && Standing(s.previous[agent]) == probe.directory
  }

  /** The answer is given to each of `agents`, wherever they stand. */
  function Share(s: GitState, agents: set<AgentId>, cached: Cached): GitState {
    s.(previous := map agent | agent in s.previous ::
           if agent in agents then s.previous[agent].(git := cached.context) else s.previous[agent],
       checked := map agent | agent in s.checked.Keys + agents ::
           if agent in agents then cached.checkedAt else s.checked[agent])
  }

  function ForgetUnvisited(s: GitState): GitState {
    s.(cache := Visited(s.cache, s.previous))
  }

  function AfterResult(s: GitState, now: nat, cwd: map<AgentId, Directory>): GitState
    requires s.worker.results.Some? && s.inFlight.Some?
  {
    var probe, cached := s.inFlight.value, Cached(now, s.worker.results.value.context);
    var taken :=
      s.(cache := s.cache[probe.directory := cached], inFlight := None, worker := s.worker.(results := None));
    var answered := AnswerProbed(taken, probe, Live(s.previous, cwd, probe.agent), cached);
    ForgetUnvisited(Share(answered, Sharers(answered, probe), cached))
  }

  /** The cache entries of directories some agent stands in. */
  function Visited(cache: map<Directory, Cached>, previous: map<AgentId, Observed>): map<Directory, Cached> {
    map d | d in cache && (exists agent | agent in previous :: Standing(previous[agent]) == d) :: cache[d]
  }

  function ApplyResult(s: GitState, now: nat, cwd: map<AgentId, Directory>): GitState {
    if s.worker.results.None? then s
    else if s.inFlight.None? then s.(worker := s.worker.(results := None))
    else AfterResult(s, now, cwd)
  }

  // ---------------------------------------------------------------------------------------------
  // Scheduling
  // ---------------------------------------------------------------------------------------------

  /** All agents, the selected one swapped to the front. */
  function Candidates(order: seq<AgentId>, selected: Option<AgentId>): seq<AgentId> {
    if selected.Some? && selected.value in order then
      var index := IndexOf(order, selected.value);
      order[0 := order[index]][index := order[0]]
    else order
  }

  function IndexOf(order: seq<AgentId>, agent: AgentId): (r: nat)
    requires agent in order
    ensures r < |order| && order[r] == agent && agent !in order[..r]
  {
    if order[0] == agent then 0 else 1 + IndexOf(order[1..], agent)
  }

  /** Whether the agent's directory is to be looked up again: it moved, or its interval has passed. */
  predicate Due(s: GitState, agent: AgentId, now: nat, cwd: map<AgentId, Directory>)
    requires agent in s.previous
  {
    || Live(s.previous, cwd, agent) != s.previous[agent].working
    || agent !in s.checked
    || Elapsed(now, s.checked[agent]) >= Interval(s.selected == Some(agent))
  }

  function Fresh(s: GitState, directory: Directory, interval: nat, now: nat): Option<Cached> {
    if directory in s.cache && Elapsed(now, s.cache[directory].checkedAt) < interval then Some(s.cache[directory])
    else None
  }

  /** Asks the worker, which takes a request unless another is waiting. */
  function Request(s: GitState, probe: Probe): GitState {
    if s.worker.requests.Some? then s
    else s.(worker := s.worker.(requests := Some(probe.directory)), inFlight := Some(probe))
  }

  /** Goes through the candidates until one needs a probe. */
  function Visit(s: GitState, candidates: seq<AgentId>, now: nat, cwd: map<AgentId, Directory>): GitState
    decreases |candidates|
  {
    if |candidates| == 0 then s
    else
      var agent := candidates[0];
      if agent !in s.previous || !Due(s, agent, now, cwd) then Visit(s, candidates[1..], now, cwd)
      else
        var working := Live(s.previous, cwd, agent);
        var directory := OrLaunch(working, s.previous[agent].launch);
        var cached := Fresh(s, directory, Interval(s.selected == Some(agent)), now);
        if cached.Some? then Visit(Observe(s, agent, working, cached.value), candidates[1..], now, cwd)
        else Request(s, Probe(agent, working, directory))
  }

  function Schedule(s: GitState, now: nat, cwd: map<AgentId, Directory>): GitState {
    if s.inFlight.Some? then s else Visit(s, Candidates(s.order, s.selected), now, cwd)
  }

  /** The agents whose record differs between two states. */
  ghost function Changes(s: GitState, s': GitState): set<AgentId> {
    set agent | agent in s.previous && agent in s'.previous && s.previous[agent] != s'.previous[agent]
  }

  lemma ShareOneMore(s: GitState, agents: set<AgentId>, agent: AgentId, cached: Cached)
    requires agent in s.previous && agent !in agents
    ensures var now := Share(s, agents, cached);
            Observe(now, agent, now.previous[agent].working, cached) == Share(s, agents + {agent}, cached)
    ensures Changes(s, Share(s, agents + {agent}, cached)) ==
            Changes(s, Share(s, agents, cached)) + if s.previous[agent].git != cached.context then {agent} else {}
    ensures Share(s, agents, cached).previous[agent] == s.previous[agent]
  {
    var now := Share(s, agents, cached);
    var next := Observe(now, agent, now.previous[agent].working, cached);
    assert next.previous == Share(s, agents + {agent}, cached).previous;
    assert next.checked == Share(s, agents + {agent}, cached).checked;
  }

  lemma ObservedChanges(before: GitState, s: GitState, agent: AgentId, working: Option<Directory>, cached: Cached)
    requires before.previous.Keys == s.previous.Keys && agent in s.previous
             && s.previous[agent] == before.previous[agent]
    ensures var after := Observe(s, agent, working, cached);
            Changes(before, after) == Changes(before, s) + if agent in Changes(s, after) then {agent} else {}
  {
  }

  lemma ChangesAddUp(s: GitState, answered: GitState, shared: GitState, agent: AgentId)
    requires s.previous.Keys == answered.previous.Keys == shared.previous.Keys
    requires Changes(s, answered) <= {agent} && agent !in Changes(answered, shared)
    ensures Changes(s, shared) == Changes(s, answered) + Changes(answered, shared)
  {
    forall a | a in s.previous
      ensures a in Changes(s, shared) <==> a in Changes(s, answered) || a in Changes(answered, shared)
    {
    }
  }

  ghost predicate Distinct(order: seq<AgentId>) {
    forall i, j | 0 <= i < j < |order| :: order[i] != order[j]
  }

  lemma CandidatesAreTheAgents(order: seq<AgentId>, selected: Option<AgentId>)
    requires Distinct(order)
    ensures Distinct(Candidates(order, selected)) && multiset(Candidates(order, selected)) == multiset(order)
    ensures selected.Some? && selected.value in order ==> Candidates(order, selected)[0] == selected.value
  {
  }

  class GitTracker {
    var order: seq<AgentId>
    var selected: Option<AgentId>
    var previous: map<AgentId, Observed>
    var checked: map<AgentId, nat>
    var cache: map<Directory, Cached>
    var inFlight: Option<Probe>
    var worker: Worker

    function State(): GitState
      reads this
    {
      GitState(order, selected, previous, checked, cache, inFlight, worker)
    }

    constructor ()
      ensures State() == GitState([], None, map[], map[], map[], None, IDLE)
    {
      order, selected, previous, checked, cache, inFlight, worker := [], None, map[], map[], map[], None, IDLE;
    }

    method ApplyGitObservation(agent: AgentId, working: Option<Directory>, cached: Cached) returns (changed: bool)
      modifies this`previous, this`checked
      ensures State() == Observe(old(State()), agent, working, cached)
      ensures changed <==> agent in Changes(old(State()), State())
    {
      if agent !in previous {
        return false;
      }
      var observed := previous[agent];
      changed := observed.working != working || observed.git != cached.context;
      previous := previous[agent := observed.(working := working, git := cached.context)];
      checked := checked[agent := cached.checkedAt];
    }

    method ScheduleGitRefresh(now: nat, cwd: map<AgentId, Directory>) returns (changed: set<AgentId>)
      requires Distinct(order)
      modifies this
      ensures State() == Schedule(old(State()), now, cwd)
      ensures changed == Changes(old(State()), State())
    {
      changed := {};
      if inFlight.Some? {
        return;
      }
      var candidates := Candidates(order, selected);
      CandidatesAreTheAgents(order, selected);
      assert candidates[0..] == candidates;
      for i := 0 to |candidates|
        invariant Visit(State(), candidates[i..], now, cwd) == Schedule(old(State()), now, cwd)
        invariant inFlight.None? && previous.Keys == old(previous).Keys
        invariant forall j | i <= j < |candidates| && candidates[j] in previous ::
                    previous[candidates[j]] == old(previous)[candidates[j]]
        invariant changed == Changes(old(State()), State())
      {
        assert candidates[i..][0] == candidates[i] && candidates[i..][1..] == candidates[i + 1..];
        var agent := candidates[i];
        if agent !in previous || !Due(State(), agent, now, cwd) {
          continue;
        }
        var working := Live(previous, cwd, agent);
        var directory := OrLaunch(working, previous[agent].launch);
        var cached := Fresh(State(), directory, Interval(selected == Some(agent)), now);
        if cached.Some? {
          ObservedChanges(old(State()), State(), agent, working, cached.value);
          var different := ApplyGitObservation(agent, working, cached.value);
          if different {
            changed := changed + {agent};
          }
          continue;
        }
        if worker.requests.None? {
          worker := worker.(requests := Some(directory));
          inFlight := Some(Probe(agent, working, directory));
        }
        return;
      }
      assert State() == Visit(State(), [], now, cwd);
    }

    method ApplyGitResult(now: nat, cwd: map<AgentId, Directory>) returns (changed: set<AgentId>)
      requires worker.results.Some? && inFlight.Some? ==> worker.results.value.directory == inFlight.value.directory
      modifies this
      ensures State() == ApplyResult(old(State()), now, cwd)
      ensures changed == Changes(old(State()), State())
    {
      changed := {};
      if worker.results.None? {
        return;
      }
      var result := worker.results.value;
      worker := worker.(results := None);
      if inFlight.None? {
        return;
      }
      var probe := inFlight.value;
      inFlight := None;
      assert result.directory == probe.directory;
      var cached := Cached(now, result.context);
      cache := cache[probe.directory := cached];
      ghost var taken := State();
      changed := Answer(probe, Live(previous, cwd, probe.agent), cached);
      ghost var answered := State();
      var others := ShareWithOthers(probe, cached);
      ChangesAddUp(taken, answered, State(), probe.agent);
      changed := changed + others;
      ForgetUnvisitedGitCache();
    }

    method Answer(probe: Probe, current: Option<Directory>, cached: Cached) returns (changed: set<AgentId>)
      modifies this`previous, this`checked
      ensures State() == AnswerProbed(old(State()), probe, current, cached)
      ensures changed == Changes(old(State()), State()) && changed <= {probe.agent}
    {
      changed := {};
      var different := false;
      if current == probe.working {
        different := ApplyGitObservation(probe.agent, probe.working, cached);
      } else {
        if probe.agent in previous {
          var observed := previous[probe.agent];
          different := observed.working != current || observed.git.Some?;
          previous := previous[probe.agent := observed.(working := current, git := None)];
        }
        checked := checked - {probe.agent};
      }
      if different {
        changed := {probe.agent};
      }
    }

    method ShareWithOthers(probe: Probe, cached: Cached) returns (changed: set<AgentId>)
      modifies this`previous, this`checked
      ensures State() == Share(old(State()), Sharers(old(State()), probe), cached)
      ensures changed == Changes(old(State()), State()) && probe.agent !in changed
    {
      changed := {};
      var shared :=
        set agent | agent in previous && agent != probe.agent && Standing(previous[agent]) == probe.directory;
      ghost var s, all, done := State(), shared, {};
      assert Share(s, {}, cached) == s;
      while shared != {}
        invariant shared + done == all && shared !! done
        invariant State() == Share(s, done, cached) && changed == Changes(s, Share(s, done, cached)) && changed <= done
        decreases shared
      {
        var agent :| agent in shared;
        ShareOneMore(s, done, agent, cached);
        shared, done := shared - {agent}, done + {agent};
        var different := ApplyGitObservation(agent, previous[agent].working, cached);
        if different {
          changed := changed + {agent};
        }
      }
      assert done == all;
    }

    method ForgetUnvisitedGitCache()
      modifies this`cache
      ensures State() == old(State()).(cache := Visited(old(cache), previous))
    {
      var visited := set agent | agent in previous :: Standing(previous[agent]);
      cache := map d | d in cache && d in visited :: cache[d];
    }
  }

  // ---------------------------------------------------------------------------------------------
  // Every run
  // ---------------------------------------------------------------------------------------------

  /** `probed` records every answer git has given; `used` the agent identifiers handed out, which never come again. */
  datatype World = World(git: GitState, used: set<AgentId>, probed: set<ContextResult>)

  const START := World(GitState([], None, map[], map[], map[], None, IDLE), {}, {})

  datatype Action =
    | Register(agent: AgentId, launch: Directory)
    | Close(agent: AgentId)
    | Select(choice: Option<AgentId>)
    | Force(agent: AgentId)
    | TakeResult(now: nat, cwd: map<AgentId, Directory>)
    | Refresh(now: nat, cwd: map<AgentId, Directory>)
    | WorkerStarts
    | WorkerAnswers(context: Option<GitContext>)

  function Next(w: World, a: Action): World {
    var s := w.git;
    match a
    case Register(agent, launch) =>
      if agent in w.used then w
      else
        w.(git := s.(order := s.order + [agent], previous := s.previous[agent := Observed(launch, None, None)]),
           used := w.used + {agent})
    case Close(agent) =>
      w.(git :=
        s.(order := A.Without(s.order, agent), previous := s.previous - {agent}, checked := s.checked - {agent}))
    case Select(choice) => w.(git := s.(selected := choice))
    case Force(agent) => w.(git := s.(checked := s.checked - {agent}))
    case TakeResult(now, cwd) => w.(git := ApplyResult(s, now, cwd))
    case Refresh(now, cwd) => w.(git := Schedule(s, now, cwd))
    case WorkerStarts =>
      if s.worker.running.Some? || s.worker.requests.None? then w
      else w.(git := s.(worker := Worker(None, s.worker.requests, s.worker.results)))
    case WorkerAnswers(context) =>
      if s.worker.running.None? || s.worker.results.Some? then w
      else
        var result := ContextResult(s.worker.running.value, context);
        w.(git := s.(worker := Worker(s.worker.requests, None, Some(result))), probed := w.probed + {result})
  }

  /** What is shown for the agent came from a probe of the directory it is recorded to stand in. */
  ghost predicate Shown(o: Observed, probed: set<ContextResult>) {
    o.git.Some? ==> ContextResult(Standing(o), o.git) in probed
  }

  ghost predicate CacheTrue(cache: map<Directory, Cached>, probed: set<ContextResult>) {
    forall d | d in cache :: ContextResult(d, cache[d].context) in probed
  }

  /** How many probes are on their way: asked for, running, or answered and not yet taken. */
  function Outstanding(worker: Worker): nat {
    (if worker.requests.Some? then 1 else 0) + (if worker.running.Some? then 1 else 0)
    + if worker.results.Some? then 1 else 0
  }

  /** The worker has what the in-flight record says, and nothing else. */
  ghost predicate Agrees(inFlight: Option<Probe>, worker: Worker) {
    if inFlight.None? then worker == IDLE
    else
      && Outstanding(worker) == 1
      && (worker.requests.Some? ==> worker.requests.value == inFlight.value.directory)
      && (worker.running.Some? ==> worker.running.value == inFlight.value.directory)
      && (worker.results.Some? ==> worker.results.value.directory == inFlight.value.directory)
  }

  /** The probe is of the directory its agent stood in when it was asked for. */
  ghost predicate ProbeFits(s: GitState) {
    s.inFlight.Some? && s.inFlight.value.agent in s.previous ==>
      s.inFlight.value.directory == OrLaunch(s.inFlight.value.working, s.previous[s.inFlight.value.agent].launch)
  }

  ghost predicate KeysAgree(s: GitState) {
    Distinct(s.order) && (forall agent :: agent in s.order <==> agent in s.previous)
      && s.checked.Keys <= s.previous.Keys
  }

  ghost predicate AllShown(s: GitState, probed: set<ContextResult>) {
    forall agent | agent in s.previous :: Shown(s.previous[agent], probed)
  }

  ghost predicate Inv(w: World) {
    && KeysAgree(w.git) && w.git.previous.Keys <= w.used
    && (w.git.inFlight.Some? ==> w.git.inFlight.value.agent in w.used)
    && (w.git.worker.results.Some? ==> w.git.worker.results.value in w.probed)
    && AllShown(w.git, w.probed) && CacheTrue(w.git.cache, w.probed)
    && Agrees(w.git.inFlight, w.git.worker) && ProbeFits(w.git)
  }

  lemma {:induction false} WithoutRemoves(order: seq<AgentId>, agent: AgentId)
    ensures forall other :: other in A.Without(order, agent) <==> other in order && other != agent
    ensures Distinct(order) ==> Distinct(A.Without(order, agent))
  {
    if |order| > 0 {
      WithoutRemoves(order[1..], agent);
      assert order == [order[0]] + order[1..];
      if Distinct(order) {
        forall i, j | 0 <= i < j < |order[1..]|
          ensures order[1..][i] != order[1..][j]
        {
          assert order[i + 1] != order[j + 1];
        }
        assert order[0] !in order[1..];
      }
    }
  }

  lemma ObserveKeepsShown(
    s: GitState, agent: AgentId, working: Option<Directory>, cached: Cached, probed: set<ContextResult>)
    requires KeysAgree(s) && AllShown(s, probed)
    requires agent in s.previous ==>
             ContextResult(OrLaunch(working, s.previous[agent].launch), cached.context) in probed
    ensures var s' := Observe(s, agent, working, cached);
            KeysAgree(s') && AllShown(s', probed) && s'.previous.Keys == s.previous.Keys
  {
  }

  lemma {:induction false} VisitKeepsInv(w: World, candidates: seq<AgentId>, now: nat, cwd: map<AgentId, Directory>)
    requires Inv(w) && w.git.inFlight.None?
    ensures Inv(w.(git := Visit(w.git, candidates, now, cwd)))
    decreases |candidates|
  {
    var s := w.git;
    if |candidates| > 0 {
      var agent := candidates[0];
      if agent !in s.previous || !Due(s, agent, now, cwd) {
        VisitKeepsInv(w, candidates[1..], now, cwd);
      } else {
        var working := Live(s.previous, cwd, agent);
        var directory := OrLaunch(working, s.previous[agent].launch);
        var cached := Fresh(s, directory, Interval(s.selected == Some(agent)), now);
        if cached.Some? {
          ObserveKeepsShown(s, agent, working, cached.value, w.probed);
          VisitKeepsInv(w.(git := Observe(s, agent, working, cached.value)), candidates[1..], now, cwd);
        }
      }
    }
  }

  lemma ShareKeepsShown(s: GitState, probe: Probe, cached: Cached, probed: set<ContextResult>)
    requires KeysAgree(s) && AllShown(s, probed) && ContextResult(probe.directory, cached.context) in probed
    ensures var s' := Share(s, Sharers(s, probe), cached);
            KeysAgree(s') && AllShown(s', probed) && s'.previous.Keys == s.previous.Keys
  {
  }

  lemma AnswerKeepsShown(
    s: GitState, probe: Probe, current: Option<Directory>, cached: Cached, probed: set<ContextResult>)
    requires KeysAgree(s) && AllShown(s, probed) && ContextResult(probe.directory, cached.context) in probed
    requires probe.agent in s.previous ==> probe.directory == OrLaunch(probe.working, s.previous[probe.agent].launch)
    ensures var s' := AnswerProbed(s, probe, current, cached);
            KeysAgree(s') && AllShown(s', probed) && s'.previous.Keys == s.previous.Keys
  {
    if current == probe.working {
      ObserveKeepsShown(s, probe.agent, probe.working, cached, probed);
    }
  }

  lemma ForgettingKeepsShown(s: GitState, probed: set<ContextResult>)
    requires KeysAgree(s) && AllShown(s, probed) && CacheTrue(s.cache, probed)
    ensures var s' := ForgetUnvisited(s);
            KeysAgree(s') && AllShown(s', probed) && CacheTrue(s'.cache, probed) && s'.previous == s.previous
  {
  }

  lemma ResultKeepsInv(w: World, now: nat, cwd: map<AgentId, Directory>)
    requires Inv(w) && w.git.worker.results.Some?
    ensures Inv(w.(git := ApplyResult(w.git, now, cwd)))
  {
    var s := w.git;
    var probe, cached := s.inFlight.value, Cached(now, s.worker.results.value.context);
    assert ContextResult(probe.directory, cached.context) == s.worker.results.value;
    var taken :=
      s.(cache := s.cache[probe.directory := cached], inFlight := None, worker := s.worker.(results := None));
    var answered := AnswerProbed(taken, probe, Live(s.previous, cwd, probe.agent), cached);
    AnswerKeepsShown(taken, probe, Live(s.previous, cwd, probe.agent), cached, w.probed);
    ShareKeepsShown(answered, probe, cached, w.probed);
    var shared := Share(answered, Sharers(answered, probe), cached);
    ForgettingKeepsShown(shared, w.probed);
    assert ApplyResult(s, now, cwd) == ForgetUnvisited(shared);
  }

  lemma StepKeepsInv(w: World, a: Action)
    requires Inv(w)
    ensures Inv(Next(w, a))
  {
    match a {
      case Close(agent) => WithoutRemoves(w.git.order, agent);
      case TakeResult(now, cwd) =>
        if w.git.worker.results.Some? {
          ResultKeepsInv(w, now, cwd);
        }
      case Refresh(now, cwd) =>
        if w.git.inFlight.None? {
          VisitKeepsInv(w, Candidates(w.git.order, w.git.selected), now, cwd);
        }
      case _ =>
    }
  }

  ghost predicate IsRun(states: seq<World>, actions: seq<Action>) {
    && |states| == |actions| + 1 && states[0] == START
    && forall i | 0 <= i < |actions| :: states[i + 1] == Next(states[i], actions[i])
  }

  lemma {:induction false} RunKeepsInv(states: seq<World>, actions: seq<Action>, i: nat)
    requires IsRun(states, actions) && i < |states|
    ensures Inv(states[i])
  {
    if i > 0 {
      RunKeepsInv(states, actions, i - 1);
      StepKeepsInv(states[i - 1], actions[i - 1]);
    }
  }

  /**
   Main result: in every state of every run, the git context shown for an agent is what git answered for
   exactly the directory recorded beside it; at most one probe is on its way; and its answer, when it
   comes, is about the directory of the in-flight record.
   */
  lemma GitProvenance(states: seq<World>, actions: seq<Action>, i: nat)
    requires IsRun(states, actions) && i < |states|
    ensures forall agent | agent in states[i].git.previous :: Shown(states[i].git.previous[agent], states[i].probed)
    ensures Outstanding(states[i].git.worker) <= 1
    ensures Outstanding(states[i].git.worker) == 1 <==> states[i].git.inFlight.Some?
    ensures states[i].git.worker.results.Some? ==>
              states[i].git.inFlight.Some?
              && states[i].git.worker.results.value.directory == states[i].git.inFlight.value.directory
  {
    RunKeepsInv(states, actions, i);
  }

  /** An answer reaches everyone recorded in the probed directory, except a probed agent that has moved. */
  lemma AnswerReachesEveryone(w: World, now: nat, cwd: map<AgentId, Directory>, agent: AgentId)
    requires Inv(w) && w.git.worker.results.Some? && agent in w.git.previous
    ensures w.git.inFlight.Some? && agent in ApplyResult(w.git, now, cwd).previous
    ensures var probe, o := w.git.inFlight.value, w.git.previous[agent];
            var o' := ApplyResult(w.git, now, cwd).previous[agent];
            o' ==
            if agent == probe.agent then
              var live := Live(w.git.previous, cwd, agent);
              if live == probe.working then o.(working := live, git := w.git.worker.results.value.context)
              else o.(working := live, git := None)
            else if Standing(o) == w.git.worker.results.value.directory then
              o.(git := w.git.worker.results.value.context)
            else o
  {
  }

  // ---------------------------------------------------------------------------------------------
  // What scheduling serves
  // ---------------------------------------------------------------------------------------------

  /** An agent that has to wait for git: due, and with no fresh answer for where it is. */
  predicate Waiting(s: GitState, agent: AgentId, now: nat, cwd: map<AgentId, Directory>) {
    && agent in s.previous && Due(s, agent, now, cwd)
    && var here := OrLaunch(Live(s.previous, cwd, agent), s.previous[agent].launch);
       Fresh(s, here, Interval(s.selected == Some(agent)), now).None?
  }

  function FirstWaiting(s: GitState, candidates: seq<AgentId>, now: nat, cwd: map<AgentId, Directory>)
      : Option<AgentId>
  {
    if |candidates| == 0 then None
    else if Waiting(s, candidates[0], now, cwd) then Some(candidates[0])
    else FirstWaiting(s, candidates[1..], now, cwd)
  }

  /** Whether two states tell the same about one agent. */
  predicate SameFor(s: GitState, s': GitState, agent: AgentId) {
    && s'.cache == s.cache && s'.selected == s.selected
    && (agent in s'.previous <==> agent in s.previous)
    && (agent in s.previous ==> s'.previous[agent] == s.previous[agent])
    && (agent in s'.checked <==> agent in s.checked) && (agent in s.checked ==> s'.checked[agent] == s.checked[agent])
  }

  lemma {:induction false} FirstWaitingUnchanged(
    s: GitState, s': GitState, candidates: seq<AgentId>, now: nat, cwd: map<AgentId, Directory>)
    requires forall agent | agent in candidates :: SameFor(s, s', agent)
    ensures FirstWaiting(s', candidates, now, cwd) == FirstWaiting(s, candidates, now, cwd)
  {
    if |candidates| > 0 {
      assert SameFor(s, s', candidates[0]);
      FirstWaitingUnchanged(s, s', candidates[1..], now, cwd);
    }
  }

  lemma {:induction false} VisitSpares(
    s: GitState, candidates: seq<AgentId>, now: nat, cwd: map<AgentId, Directory>, agent: AgentId)
    requires agent !in candidates
    ensures SameFor(s, Visit(s, candidates, now, cwd), agent)
    decreases |candidates|
  {
    if |candidates| > 0 {
      var first := candidates[0];
      if first !in s.previous || !Due(s, first, now, cwd) {
        VisitSpares(s, candidates[1..], now, cwd, agent);
      } else {
        var working := Live(s.previous, cwd, first);
        var directory := OrLaunch(working, s.previous[first].launch);
        var cached := Fresh(s, directory, Interval(s.selected == Some(first)), now);
        if cached.Some? {
          VisitSpares(Observe(s, first, working, cached.value), candidates[1..], now, cwd, agent);
        }
      }
    }
  }

  predicate DueIn(s: GitState, agent: AgentId, now: nat, cwd: map<AgentId, Directory>) {
    agent in s.previous && Due(s, agent, now, cwd)
  }

  /** Scheduling asks for the first agent that has to wait; when none has to, it leaves nobody due. */
  lemma {:induction false} VisitServes(s: GitState, candidates: seq<AgentId>, now: nat, cwd: map<AgentId, Directory>)
    requires Distinct(candidates) && s.worker == IDLE && s.inFlight.None?
    ensures var s', first := Visit(s, candidates, now, cwd), FirstWaiting(s, candidates, now, cwd);
            && (first.Some? <==> s'.inFlight.Some?) && (first.Some? ==> s'.inFlight.value.agent == first.value)
            && (first.None? ==> forall agent | agent in candidates :: !DueIn(s', agent, now, cwd))
    decreases |candidates|
  {
    if |candidates| > 0 {
      var agent, rest := candidates[0], candidates[1..];
      assert Distinct(rest) by {
        assert forall i | 0 <= i < |rest| :: rest[i] == candidates[i + 1];
      }
      assert agent !in rest;
      if !DueIn(s, agent, now, cwd) {
        VisitServes(s, rest, now, cwd);
        VisitSpares(s, rest, now, cwd, agent);
      } else {
        var working := Live(s.previous, cwd, agent);
        var directory := OrLaunch(working, s.previous[agent].launch);
        var cached := Fresh(s, directory, Interval(s.selected == Some(agent)), now);
        if cached.Some? {
          var s1 := Observe(s, agent, working, cached.value);
          FirstWaitingUnchanged(s, s1, rest, now, cwd);
          VisitServes(s1, rest, now, cwd);
          VisitSpares(s1, rest, now, cwd, agent);
        }
      }
    }
  }

  /**
   With no probe on its way, scheduling leaves an agent due only if it has asked git about one that has to
   wait; and if the selected agent has to wait, it has asked about that one.
   */
  lemma SchedulingServes(w: World, now: nat, cwd: map<AgentId, Directory>)
    requires Inv(w) && w.git.inFlight.None?
    ensures var s' := Schedule(w.git, now, cwd);
            && (s'.inFlight.None? ==> forall agent | agent in w.git.previous :: !DueIn(s', agent, now, cwd))
            && (s'.inFlight.Some? ==> Waiting(w.git, s'.inFlight.value.agent, now, cwd))
            && (w.git.selected.Some? && Waiting(w.git, w.git.selected.value, now, cwd) ==>
                  s'.inFlight.Some? && s'.inFlight.value.agent == w.git.selected.value)
  {
    var candidates := Candidates(w.git.order, w.git.selected);
    CandidatesAreTheAgents(w.git.order, w.git.selected);
    VisitServes(w.git, candidates, now, cwd);
    FirstWaitingWaits(w.git, candidates, now, cwd);
    forall agent | agent in w.git.previous
      ensures agent in candidates
    {
      assert agent in multiset(w.git.order) && agent in multiset(candidates);
    }
  }

  lemma {:induction false} FirstWaitingWaits(
    s: GitState, candidates: seq<AgentId>, now: nat, cwd: map<AgentId, Directory>)
    ensures FirstWaiting(s, candidates, now, cwd).Some? ==>
            Waiting(s, FirstWaiting(s, candidates, now, cwd).value, now, cwd)
  {
    if |candidates| > 0 {
      FirstWaitingWaits(s, candidates[1..], now, cwd);
    }
  }

  /**
   An agent that has not moved falls due again a second after its last look-up if it is the selected one, and
   after five seconds if not. So the selected one is due no later than another looked up at the same time.
   */
  lemma DueExactly(s: GitState, agent: AgentId, now: nat, cwd: map<AgentId, Directory>)
    requires agent in s.previous && agent in s.checked && Live(s.previous, cwd, agent) == s.previous[agent].working
    ensures Due(s, agent, now, cwd) <==> now >= s.checked[agent] + if s.selected == Some(agent) then 1000 else 5000
    ensures s.selected == Some(agent) ==>
              forall other | other in s.previous && other in s.checked && s.checked[other] == s.checked[agent] ::
                Live(s.previous, cwd, other) == s.previous[other].working && Due(s, other, now, cwd) ==>
                  Due(s, agent, now, cwd)
  {
  }
}
