/**
 What a client shows is always something the server drew.

 The channel here may do anything to numbered frames: lose them, repeat them, deliver them in any
 order and at any time. The only frames it can deliver are those the server made. Even so, a screen a
 client holds under number n is the screen the server gave number n.
 */
module ReplicationSafety {
  import opened Basics
  import opened TerminalModel
  import opened Frames
  import opened FrameBook
  import opened RemoteAgents

  /**
   `history` records which screen each number of each agent stood for, and `sent` every frame ever
   made. `used` holds the agent identifiers given out so far; they are never given out again.
   */
  datatype System = System(
    book: BookState,
    used: set<AgentId>,
    history: map<(AgentId, u64), TerminalSnapshot>,
    sent: set<Message>,
    client: ClientState)

  const START := System(BookState(map[], map[]), {}, map[], {}, EMPTY)

  datatype Action =
    | Register(agent: AgentId)
    | Remove(agent: AgentId)
    | ClearBases
    | Emit(agent: AgentId, forceFull: bool, terminal: TerminalSnapshot)
    | Ack(agent: AgentId, sequence: u64)
    | Deliver(m: Message)
    | Scroll(agent: AgentId, rows: int)
    | NewClient

  /** Whether the action can happen: fresh identifiers, screens the emulator can draw, frames the server made. */
  predicate Enabled(s: System, a: Action) {
    match a
    case Register(agent) => agent !in s.used
    case Emit(_, _, terminal) => Valid(terminal)
    case Deliver(m) => IsNumbered(m) ==> m in s.sent
    case _ => true
  }

  function Next(s: System, a: Action): System {
    if !Enabled(s, a) || !Sound(s.client) then s
    else
      match a
      case Register(agent) => s.(book := s.book.(sequences := s.book.sequences[agent := 0]), used := s.used + {agent})
      case Remove(agent) => s.(book := BookState(s.book.sequences - {agent}, s.book.bases - {agent}))
      case ClearBases => s.(book := s.book.(bases := map[]))
      case Emit(agent, forceFull, terminal) =>
        var (book, frame) := NextFrame(s.book, agent, forceFull, terminal);
        if frame.None? then s.(book := book)
        else
          s.(book := book,
             history := s.history[(agent, frame.value.sequence) := terminal],
             sent := s.sent + {frame.value})
      case Ack(agent, sequence) => s.(book := Acknowledged(s.book, agent, sequence).0)
      case Deliver(m) => s.(client := Receive(s.client, m).0)
      case Scroll(agent, rows) =>
        if agent !in s.client.terminals then s
        else
          var terminal := ScrollTerminal(s.client.terminals[agent], rows).0;
          s.(client := s.client.(terminals := s.client.terminals[agent := terminal]))
      case NewClient => s.(client := EMPTY)
  }

  // ---------------------------------------------------------------------------------------------
  // The invariant
  // ---------------------------------------------------------------------------------------------

  /** A full frame carries the screen of its number; a diff leads from one numbered screen to a later one. */
  ghost predicate HonestFrame(history: map<(AgentId, u64), TerminalSnapshot>, m: Message) {
    match m
    case TerminalFull(agent, n, snapshot) => (agent, n) in history && history[(agent, n)] == snapshot
    case TerminalDiff(agent, base, n, diff) =>
      && base < n && (agent, base) in history && (agent, n) in history
      && Diff(history[(agent, base)], history[(agent, n)]) == Some(diff)
    case _ => false
  }

  ghost predicate HonestScreen(history: map<(AgentId, u64), TerminalSnapshot>, agent: AgentId, t: CachedTerminal) {
    t.tracker.sequence.Some? ==>
      (agent, t.tracker.sequence.value) in history && t.snapshot == history[(agent, t.tracker.sequence.value)]
  }

  ghost predicate HistoryBounded(s: System) {
    forall agent, n | (agent, n) in s.history ::
      agent in s.used && (agent in s.book.sequences ==> n <= s.book.sequences[agent])
  }

  ghost predicate HistoryValid(s: System) {
    forall key | key in s.history :: Valid(s.history[key])
  }

  ghost predicate BasesRecorded(s: System) {
    forall agent | agent in s.book.bases ::
      var basis := s.book.bases[agent];
      (agent, basis.sequence) in s.history && s.history[(agent, basis.sequence)] == basis.snapshot
  }

  ghost predicate ServerInv(s: System) {
    && Consistent(s.book) && s.book.sequences.Keys <= s.used
    && HistoryBounded(s) && HistoryValid(s) && BasesRecorded(s)
    && FramesHonest(s)
  }

  ghost predicate FramesHonest(s: System) {
    forall m | m in s.sent :: HonestFrame(s.history, m)
  }

  /** Every screen the client holds under a number is the server's screen of that number. */
  ghost predicate ClientFaithful(s: System) {
    && Sound(s.client)
    && forall agent | agent in s.client.terminals :: HonestScreen(s.history, agent, s.client.terminals[agent])
  }

  ghost predicate Inv(s: System) {
    ServerInv(s) && ClientFaithful(s)
  }

  /** A new number overwrites nothing. */
  lemma EmitIsFresh(s: System, agent: AgentId, forceFull: bool, terminal: TerminalSnapshot)
    requires ServerInv(s) && NextFrame(s.book, agent, forceFull, terminal).1.Some?
    ensures (agent, NextFrame(s.book, agent, forceFull, terminal).1.value.sequence) !in s.history
  {
  }

  lemma HonestFrameExtends(
    history: map<(AgentId, u64), TerminalSnapshot>, m: Message, key: (AgentId, u64), terminal: TerminalSnapshot)
    requires HonestFrame(history, m) && key !in history
    ensures HonestFrame(history[key := terminal], m)
  {
  }

  lemma EmittedFrameIsHonest(s: System, agent: AgentId, forceFull: bool, terminal: TerminalSnapshot)
    requires ServerInv(s) && Valid(terminal) && NextFrame(s.book, agent, forceFull, terminal).1.Some?
    ensures var frame := NextFrame(s.book, agent, forceFull, terminal).1.value;
            HonestFrame(s.history[(agent, frame.sequence) := terminal], frame)
  {
    EmitIsFresh(s, agent, forceFull, terminal);
  }

  /** What making a frame does to the server's records. */
  lemma EmitRecords(s: System, a: Action)
    requires Inv(s) && a.Emit? && Valid(a.terminal)
    ensures var (book, frame) := NextFrame(s.book, a.agent, a.forceFull, a.terminal);
            && Next(s, a).book == book && Next(s, a).used == s.used
            && (frame.None? ==> Next(s, a).history == s.history)
            && (frame.Some? ==> Next(s, a).history == s.history[(a.agent, frame.value.sequence) := a.terminal])
            && (frame.Some? ==> a.agent in book.sequences && frame.value.sequence == book.sequences[a.agent])
  {
  }

  lemma EmitKeepsHistoryBounded(s: System, a: Action)
    requires Inv(s) && a.Emit? && Valid(a.terminal)
    ensures HistoryBounded(Next(s, a)) && HistoryValid(Next(s, a))
  {
    EmitRecords(s, a);
  }

  lemma EmitKeepsBasesRecorded(s: System, a: Action)
    requires Inv(s) && a.Emit? && Valid(a.terminal)
    ensures BasesRecorded(Next(s, a))
  {
    EmitRecords(s, a);
  }

  lemma EmitKeepsFramesHonest(s: System, a: Action)
    requires Inv(s) && a.Emit? && Valid(a.terminal)
    ensures FramesHonest(Next(s, a))
  {
    var frame := NextFrame(s.book, a.agent, a.forceFull, a.terminal).1;
    if frame.Some? {
      EmitIsFresh(s, a.agent, a.forceFull, a.terminal);
      EmittedFrameIsHonest(s, a.agent, a.forceFull, a.terminal);
      forall m | m in Next(s, a).sent
        ensures HonestFrame(Next(s, a).history, m)
      {
        if m != frame.value {
          HonestFrameExtends(s.history, m, (a.agent, frame.value.sequence), a.terminal);
        }
      }
    }
  }

  lemma ServerStep(s: System, a: Action)
    requires Inv(s)
    ensures ServerInv(Next(s, a))
  {
    if a.Emit? && Enabled(s, a) {
      NextFrameKeepsConsistent(s.book, a.agent, a.forceFull, a.terminal);
      EmitRecords(s, a);
      EmitKeepsHistoryBounded(s, a);
      EmitKeepsBasesRecorded(s, a);
      EmitKeepsFramesHonest(s, a);
    } else if a.Ack? {
      AcknowledgeIsMonotone(s.book, a.agent, a.sequence);
    }
  }

  // ---------------------------------------------------------------------------------------------
  // Frames at the client
  // ---------------------------------------------------------------------------------------------

  /**
   A diff the server made never fails on a screen whose tracker accepts it, and gives the screen of
   the diff's own number.
   */
  lemma AcceptedDiffApplies(
    history: map<(AgentId, u64), TerminalSnapshot>, agent: AgentId, t: CachedTerminal, m: Message)
    requires forall key | key in history :: Valid(history[key])
    requires m.TerminalDiff? && m.agent == agent && HonestFrame(history, m)
    requires Valid(t.snapshot) && HonestScreen(history, agent, t)
    requires t.tracker.AcceptDiff(m.base, m.sequence).1 == Applied
    ensures Apply(t.snapshot, m.diff) == Ok(history[(agent, m.sequence)])
    ensures ApplyDiffTo(t, m.base, m.sequence, m.diff).1 == Applied
    ensures HonestScreen(history, agent, ApplyDiffTo(t, m.base, m.sequence, m.diff).0)
    ensures Valid(ApplyDiffTo(t, m.base, m.sequence, m.diff).0.snapshot)
  {
    DiffRebuilds(history[(agent, m.base)], history[(agent, m.sequence)]);
  }

  lemma AnswerKeepsLiveScreen(t: CachedTerminal, requested: nat, scrollback: nat, snapshot: TerminalSnapshot)
    ensures var next := Answer(t, requested, scrollback, snapshot).0;
            next.snapshot == t.snapshot && next.tracker == t.tracker
  {
  }

  lemma DeliverDiffKeepsFaithful(s: System, m: Message)
    requires Inv(s) && m.TerminalDiff? && m in s.sent
    ensures ClientFaithful(s.(client := Receive(s.client, m).0))
  {
    if m.agent in s.client.terminals {
      var t := s.client.terminals[m.agent];
      assert HonestScreen(s.history, m.agent, t) && HonestFrame(s.history, m);
      if t.tracker.AcceptDiff(m.base, m.sequence).1 == Applied {
        AcceptedDiffApplies(s.history, m.agent, t, m);
      }
    }
  }

  lemma DeliverKeepsFaithful(s: System, m: Message)
    requires Inv(s) && (IsNumbered(m) ==> m in s.sent)
    ensures ClientFaithful(s.(client := Receive(s.client, m).0))
  {
    match m {
      case TerminalFull(_, _, _) =>
      case TerminalDiff(_, _, _, _) =>
        DeliverDiffKeepsFaithful(s, m);
      case TerminalViewport(agent, requested, scrollback, snapshot) =>
        if agent in s.client.terminals {
          AnswerKeepsLiveScreen(s.client.terminals[agent], requested, scrollback, snapshot);
        }
      case AgentGone(_) =>
      case Other(_) =>
    }
  }

  lemma HonestScreenExtends(history: map<(AgentId, u64), TerminalSnapshot>, agent: AgentId, t: CachedTerminal,
                            key: (AgentId, u64), terminal: TerminalSnapshot)
    requires HonestScreen(history, agent, t) && key !in history
    ensures HonestScreen(history[key := terminal], agent, t)
  {
  }

  lemma StepKeepsInv(s: System, a: Action)
    requires Inv(s)
    ensures Inv(Next(s, a))
  {
    ServerStep(s, a);
    if a.Deliver? && Enabled(s, a) {
      DeliverKeepsFaithful(s, a.m);
    } else if a.Emit? && Enabled(s, a) {
      var frame := NextFrame(s.book, a.agent, a.forceFull, a.terminal).1;
      if frame.Some? {
        EmitIsFresh(s, a.agent, a.forceFull, a.terminal);
        forall agent | agent in s.client.terminals
          ensures HonestScreen(Next(s, a).history, agent, s.client.terminals[agent])
        {
          HonestScreenExtends(s.history, agent, s.client.terminals[agent], (a.agent, frame.value.sequence), a.terminal);
        }
      }
    }
  }

  // ---------------------------------------------------------------------------------------------
  // Every run
  // ---------------------------------------------------------------------------------------------

  ghost predicate IsRun(states: seq<System>, actions: seq<Action>) {
    && |states| == |actions| + 1 && states[0] == START
    && forall i | 0 <= i < |actions| :: states[i + 1] == Next(states[i], actions[i])
  }

  lemma {:induction false} RunKeepsInv(states: seq<System>, actions: seq<Action>, i: nat)
    requires IsRun(states, actions) && i < |states|
    ensures Inv(states[i])
  {
    if i > 0 {
      RunKeepsInv(states, actions, i - 1);
      StepKeepsInv(states[i - 1], actions[i - 1]);
    }
  }

  /** Main result: in every state of every run, a screen held under number n is the screen the server numbered n. */
  lemma ReplicationIsSafe(states: seq<System>, actions: seq<Action>, i: nat, agent: AgentId)
    requires IsRun(states, actions) && i < |states|
    requires agent in states[i].client.terminals && states[i].client.terminals[agent].tracker.sequence.Some?
    ensures var t := states[i].client.terminals[agent];
            && (agent, t.tracker.sequence.value) in states[i].history
            && t.snapshot == states[i].history[(agent, t.tracker.sequence.value)]
  {
    RunKeepsInv(states, actions, i);
  }

  /** And a number, once given to a screen, keeps its screen for the rest of the run. */
  lemma {:induction false} HistoryNeverChanges(
    states: seq<System>, actions: seq<Action>, i: nat, j: nat, key: (AgentId, u64))
    requires IsRun(states, actions) && i <= j < |states| && key in states[i].history
    ensures key in states[j].history && states[j].history[key] == states[i].history[key]
  {
    if i < j {
      HistoryNeverChanges(states, actions, i, j - 1, key);
      RunKeepsInv(states, actions, j - 1);
      var s, a := states[j - 1], actions[j - 1];
      if a.Emit? && Enabled(s, a) && NextFrame(s.book, a.agent, a.forceFull, a.terminal).1.Some? {
        EmitIsFresh(s, a.agent, a.forceFull, a.terminal);
      }
    }
  }

  /** In every state of every run, no diff the server ever made can fail to apply once the tracker accepts it. */
  lemma AcceptedDiffsNeverFail(states: seq<System>, actions: seq<Action>, i: nat, m: Message)
    requires IsRun(states, actions) && i < |states|
    requires m.TerminalDiff? && m in states[i].sent && m.agent in states[i].client.terminals
    ensures Valid(states[i].client.terminals[m.agent].snapshot)
    ensures var t := states[i].client.terminals[m.agent];
            t.tracker.AcceptDiff(m.base, m.sequence).1 == Applied ==>
              ApplyDiffTo(t, m.base, m.sequence, m.diff).1 == Applied
  {
    RunKeepsInv(states, actions, i);
    var t := states[i].client.terminals[m.agent];
    if t.tracker.AcceptDiff(m.base, m.sequence).1 == Applied {
      AcceptedDiffApplies(states[i].history, m.agent, t, m);
    }
  }
}
