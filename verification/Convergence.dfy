/**
 The whole terminal pipeline of one attached client: the server's book, events made but not yet
 pushed, the evicting queue, the wire, and the client.

 In every state of a run one can ask where the client would end up if it took in everything already on
 its way. The answer is the server's last frame of every agent, with never a gap on the way, as long
 as no push evicts an agent's newest frame without replacing it. Such a push is possible: a viewport
 counts as complete, and so does a full frame that is older than the one the queue holds.
 `ConvergenceExactly` says that these pushes are the only way to go wrong.
 */
module Convergence {
  import opened Basics
  import opened TerminalModel
  import opened Frames
  import opened FrameNumbers
  import opened FrameBook
  import opened RemoteAgents
  import S = ReplicationSafety
  import Q = OutgoingQueue
  import Sending

  datatype Net = Net(sys: S.System, attached: bool, unsent: seq<Message>, queue: seq<Message>, wire: seq<Message>)

  const START := Net(S.START, false, [], [], [])

  function Pipeline(net: Net): seq<Message> {
    net.wire + net.queue + net.unsent
  }

  datatype Action =
    | Spawn(agent: AgentId)
    | Close(agent: AgentId)
    | ClearBases
    | Draw(agent: AgentId, forceFull: bool, terminal: TerminalSnapshot)
    | View(agent: AgentId, requested: nat, scrollback: nat, snapshot: TerminalSnapshot)
    | Say(tag: nat)
    | PushNext(terminal: TerminalSnapshot)
    | Pop
    | Deliver
    | Attach
    | Detach
    | Ack(agent: AgentId, sequence: u64)
    | Scroll(agent: AgentId, rows: int)

  /** Whether a frame or viewport of the agent is still waiting to be pushed. */
  predicate Pending(unsent: seq<Message>, agent: AgentId) {
    exists i | 0 <= i < |unsent| :: Q.IsOf(unsent[i], agent)
  }

  /**
   One request or poll makes at most one frame or viewport per agent before its events are pushed, and
   none for an agent it has just removed.
   */
  predicate Enabled(net: Net, a: Action) {
    match a
    case Spawn(agent) => agent !in net.sys.used
    case Close(agent) => agent in net.sys.book.sequences && !Pending(net.unsent, agent)
    case Draw(agent, _, terminal) => net.attached && Valid(terminal) && !Pending(net.unsent, agent)
    case View(agent, _, _, _) => net.attached && agent in net.sys.book.sequences && !Pending(net.unsent, agent)
    case Say(_) => net.attached
    case PushNext(terminal) => net.attached && |net.unsent| > 0 && Valid(terminal)
    case Pop => |net.queue| > 0
    case Deliver => |net.wire| > 0
    case Attach => !net.attached
    case _ => true
  }

  /** The connection is gone, and the session's bases with it. */
  function Hangup(net: Net): Net {
    Net(S.Next(S.Next(net.sys, S.ClearBases), S.NewClient), false, [], [], [])
  }

  /** `send`: push one message; when the queue asks for it, make a fresh full frame and push that too. */
  function Send(net: Net, m: Message, rest: seq<Message>, terminal: TerminalSnapshot): Net {
    var (q, r) := Q.Push(Q.QueueState(net.queue, false), m);
    match r
    case Queued => net.(queue := q.frames, unsent := rest)
    case Full => Hangup(net)
    case NeedsFull(agent) =>
      var frame := NextFrame(net.sys.book, agent, true, terminal).1;
      if frame.None? then Hangup(net)
      else
        var (q', r') := Q.Push(q, frame.value);
        if r' != Q.Queued then Hangup(net)
        else Net(S.Next(net.sys, S.Emit(agent, true, terminal)), net.attached, rest, q'.frames, net.wire)
  }

  /** The step is the server's own way of sending; a connection that does not survive it is gone. */
  lemma SendIsSending(net: Net, m: Message, rest: seq<Message>, terminal: TerminalSnapshot)
    requires Valid(terminal) && Sound(net.sys.client)
    ensures var (q, b, alive) := Sending.Sent(Q.QueueState(net.queue, false), net.sys.book, m, terminal);
            var next := Send(net, m, rest, terminal);
            if alive then
              next.queue == q.frames && next.sys.book == b && next.unsent == rest
              && next.wire == net.wire && next.sys.client == net.sys.client
            else next == Hangup(net)
  {
  }

  function Next(net: Net, a: Action): Net {
    if !Enabled(net, a) then net
    else
      match a
      case Spawn(agent) => net.(sys := S.Next(net.sys, S.Register(agent)))
      case Close(agent) =>
        net.(sys := S.Next(net.sys, S.Remove(agent)),
             unsent := if net.attached then net.unsent + [AgentGone(agent)] else net.unsent)
      case ClearBases => net.(sys := S.Next(net.sys, S.ClearBases))
      case Draw(agent, forceFull, terminal) =>
        var frame := NextFrame(net.sys.book, agent, forceFull, terminal).1;
        net.(sys := S.Next(net.sys, S.Emit(agent, forceFull, terminal)),
             unsent := net.unsent + if frame.Some? then [frame.value] else [])
      case View(agent, requested, scrollback, snapshot) =>
        net.(unsent := net.unsent + [TerminalViewport(agent, requested, scrollback, snapshot)])
      case Say(tag) => net.(unsent := net.unsent + [Other(tag)])
      case PushNext(terminal) => Send(net, net.unsent[0], net.unsent[1..], terminal)
      case Pop => net.(queue := net.queue[1..], wire := net.wire + [net.queue[0]])
      case Deliver => net.(sys := S.Next(net.sys, S.Deliver(net.wire[0])), wire := net.wire[1..])
      case Attach => Net(S.Next(S.Next(net.sys, S.ClearBases), S.NewClient), true, [], [], [])
      case Detach => Hangup(net)
      case Ack(agent, sequence) => net.(sys := S.Next(net.sys, S.Ack(agent, sequence)))
      case Scroll(agent, rows) => net.(sys := S.Next(net.sys, S.Scroll(agent, rows)))
  }

  // ---------------------------------------------------------------------------------------------
  // Where the client is headed
  // ---------------------------------------------------------------------------------------------

  /** The system after the client has taken in all of `messages`. */
  function Drained(s: S.System, messages: seq<Message>): S.System
    decreases |messages|
  {
    if |messages| == 0 then s else Drained(S.Next(s, S.Deliver(messages[0])), messages[1..])
  }

  /** For every agent with a basis, the client is headed for exactly that basis: its number and its screen. */
  ghost predicate Converged(net: Net) {
    var client := Drained(net.sys, Pipeline(net)).client;
    forall agent | agent in net.sys.book.bases ::
      && agent in client.terminals
      && client.terminals[agent].tracker.sequence == Some(net.sys.book.bases[agent].sequence)
      && client.terminals[agent].snapshot == net.sys.book.bases[agent].snapshot
  }

  /** Whether the queue holds the newest frame of an agent with a basis. */
  predicate HoldsNewest(net: Net, agent: AgentId) {
    && agent in net.sys.book.bases
    && exists i | 0 <= i < |net.queue| ::
         IsNumbered(net.queue[i]) && net.queue[i].agent == agent
         && net.queue[i].sequence == net.sys.book.bases[agent].sequence
  }

  /**
   The guard of the failing push: the queue is full and holds the newest frame of the agent whose full
   frame or viewport is pushed.
   */
  predicate Loses(net: Net, a: Action) {
    && a.PushNext? && Enabled(net, a)
    && |net.queue| == Q.CONNECTION_QUEUE
    && (net.unsent[0].TerminalFull? || net.unsent[0].TerminalViewport?)
    && HoldsNewest(net, net.unsent[0].agent)
  }

  // ---------------------------------------------------------------------------------------------
  // The invariant
  // ---------------------------------------------------------------------------------------------

  /** The stream of one agent: healthy while it lives, without gaps after it is removed, empty before it exists. */
  ghost predicate StreamOk(s: S.System, notes: seq<Note>, agent: AgentId) {
    var t := Held(s.client, agent);
    if agent in s.book.sequences then Healthy(t, notes, s.book.sequences[agent], agent in s.book.bases)
    else if agent in s.used then Fits(t, notes)
    else notes == [] && t == None
  }

  ghost predicate AgentOk(net: Net, agent: AgentId) {
    StreamOk(net.sys, Notes(Pipeline(net), agent), agent)
  }

  ghost predicate AllSent(net: Net) {
    forall m | m in Pipeline(net) && IsNumbered(m) :: m in net.sys.sent
  }

  ghost predicate Tidy(net: Net) {
    && (forall i, j | 0 <= i < j < |net.unsent| && Q.IsTerminal(net.unsent[i]) && Q.IsTerminal(net.unsent[j]) ::
          Q.TerminalFrame(net.unsent[i]).value.0 != Q.TerminalFrame(net.unsent[j]).value.0)
    && (forall i | 0 <= i < |net.unsent| && Q.IsTerminal(net.unsent[i]) ::
          Q.TerminalFrame(net.unsent[i]).value.0 in net.sys.book.sequences)
  }

  ghost predicate NetInv(net: Net) {
    && S.Inv(net.sys)
    && |net.queue| <= Q.CONNECTION_QUEUE
    && (!net.attached ==> Pipeline(net) == [])
    && AllSent(net)
    && Tidy(net)
    && forall agent :: AgentOk(net, agent)
  }

  // ---------------------------------------------------------------------------------------------
  // Delivery, note by note
  // ---------------------------------------------------------------------------------------------

  function FollowMessage(t: Option<u64>, m: Message, agent: AgentId): Option<u64> {
    Follow(t, NotesOf(m, agent))
  }

  lemma FollowNoneOrOne(t: Option<u64>, notes: seq<Note>)
    ensures |notes| == 0 ==> Follow(t, notes) == t
    ensures |notes| == 1 ==> Follow(t, notes) == FollowOne(t, notes[0])
  {
    if |notes| == 1 {
      assert notes[1..] == [];
    }
  }

  lemma ReceiveDiffFollowsNotes(s: S.System, m: Message, agent: AgentId)
    requires S.Inv(s) && m.TerminalDiff? && m in s.sent
    ensures Held(Receive(s.client, m).0, agent) == FollowMessage(Held(s.client, agent), m, agent)
  {
    FollowNoneOrOne(Held(s.client, agent), NotesOf(m, agent));
    if m.agent in s.client.terminals {
      var terminal := s.client.terminals[m.agent];
      assert S.HonestScreen(s.history, m.agent, terminal) && S.HonestFrame(s.history, m);
      if terminal.tracker.AcceptDiff(m.base, m.sequence).1 == Applied {
        S.AcceptedDiffApplies(s.history, m.agent, terminal, m);
      }
    }
  }

  /** The client's number for an agent follows the notes of what it receives. */
  lemma ReceiveFollowsNotes(s: S.System, m: Message, agent: AgentId)
    requires S.Inv(s) && (IsNumbered(m) ==> m in s.sent)
    ensures Held(S.Next(s, S.Deliver(m)).client, agent) == FollowMessage(Held(s.client, agent), m, agent)
  {
    FollowNoneOrOne(Held(s.client, agent), NotesOf(m, agent));
    match m {
      case TerminalFull(_, _, _) =>
        assert S.HonestFrame(s.history, m);
      case TerminalDiff(_, _, _, _) =>
        ReceiveDiffFollowsNotes(s, m, agent);
      case TerminalViewport(other, requested, scrollback, snapshot) =>
        if other in s.client.terminals {
          S.AnswerKeepsLiveScreen(s.client.terminals[other], requested, scrollback, snapshot);
        }
      case AgentGone(_) =>
      case Other(_) =>
    }
  }

  /** Draining the pipeline follows its notes, and leaves the server's side alone. */
  lemma {:induction false} DrainFollowsNotes(s: S.System, messages: seq<Message>, agent: AgentId)
    requires S.Inv(s)
    requires forall m | m in messages && IsNumbered(m) :: m in s.sent
    ensures S.Inv(Drained(s, messages))
    ensures Drained(s, messages).book == s.book && Drained(s, messages).history == s.history
    ensures Held(Drained(s, messages).client, agent) == Follow(Held(s.client, agent), Notes(messages, agent))
    decreases |messages|
  {
    if |messages| > 0 {
      var next := S.Next(s, S.Deliver(messages[0]));
      S.StepKeepsInv(s, S.Deliver(messages[0]));
      ReceiveFollowsNotes(s, messages[0], agent);
      DrainFollowsNotes(next, messages[1..], agent);
      FollowConcat(Held(s.client, agent), NotesOf(messages[0], agent), Notes(messages[1..], agent));
    }
  }

  /** The screen the client is headed for is settled by the number it is headed for. */
  lemma HeadedFor(net: Net, agent: AgentId)
    requires S.Inv(net.sys) && AllSent(net) && agent in net.sys.book.bases
    ensures var client := Drained(net.sys, Pipeline(net)).client;
            var basis := net.sys.book.bases[agent];
            Follow(Held(net.sys.client, agent), Notes(Pipeline(net), agent)) == Some(basis.sequence) <==>
            && agent in client.terminals
            && client.terminals[agent].tracker.sequence == Some(basis.sequence)
            && client.terminals[agent].snapshot == basis.snapshot
  {
    DrainFollowsNotes(net.sys, Pipeline(net), agent);
    var end := Drained(net.sys, Pipeline(net));
    if agent in end.client.terminals {
      assert S.HonestScreen(end.history, agent, end.client.terminals[agent]);
    }
  }

  lemma InvMeansConverged(net: Net)
    requires NetInv(net)
    ensures Converged(net)
  {
    forall agent | agent in net.sys.book.bases
      ensures var client := Drained(net.sys, Pipeline(net)).client;
              && agent in client.terminals
              && client.terminals[agent].tracker.sequence == Some(net.sys.book.bases[agent].sequence)
              && client.terminals[agent].snapshot == net.sys.book.bases[agent].snapshot
    {
      assert AgentOk(net, agent);
      HeadedFor(net, agent);
    }
  }

  // ---------------------------------------------------------------------------------------------
  // Steps that leave the pipeline alone
  // ---------------------------------------------------------------------------------------------

  lemma PopKeepsInv(net: Net)
    requires NetInv(net) && |net.queue| > 0
    ensures NetInv(Next(net, Pop))
  {
    var next := Next(net, Pop);
    assert Pipeline(next) == Pipeline(net);
    forall agent
      ensures AgentOk(next, agent)
    {
      assert AgentOk(net, agent);
    }
  }

  lemma DeliverKeepsInv(net: Net)
    requires NetInv(net) && |net.wire| > 0
    ensures NetInv(Next(net, Deliver))
    ensures forall agent :: Fits(Held(net.sys.client, agent), NotesOf(net.wire[0], agent))
  {
    var next := Next(net, Deliver);
    var m, rest := net.wire[0], Pipeline(next);
    assert Pipeline(net) == [m] + rest;
    assert m in Pipeline(net);
    S.StepKeepsInv(net.sys, S.Deliver(m));
    forall agent
      ensures AgentOk(next, agent)
      ensures Fits(Held(net.sys.client, agent), NotesOf(m, agent))
    {
      assert AgentOk(net, agent);
      ReceiveFollowsNotes(net.sys, m, agent);
      NotesConcat([m], rest, agent);
      NotesSingle(m, agent);
      DeliveredStream(net.sys, next.sys, m, Notes(rest, agent), agent);
    }
  }

  lemma DeliveredStream(s: S.System, s': S.System, m: Message, rest: seq<Note>, agent: AgentId)
    requires StreamOk(s, NotesOf(m, agent) + rest, agent)
    requires s'.book == s.book && s'.used == s.used
    requires Held(s'.client, agent) == FollowMessage(Held(s.client, agent), m, agent)
    ensures StreamOk(s', rest, agent)
    ensures Fits(Held(s.client, agent), NotesOf(m, agent))
  {
    var t, notes := Held(s.client, agent), NotesOf(m, agent);
    if |notes| == 0 {
      assert notes + rest == rest;
    } else {
      assert notes == [notes[0]];
      FollowConcat(t, notes, rest);
      assert Follow(t, notes) == FollowOne(t, notes[0]);
      if agent in s.book.sequences {
        HealthyDeliver(t, notes[0], rest, s.book.sequences[agent], agent in s.book.bases);
      }
    }
  }

  // ---------------------------------------------------------------------------------------------
  // Steps that add to the events to be pushed
  // ---------------------------------------------------------------------------------------------

  /** A message that is not about this agent, or a viewport of it, leaves its stream alone. */
  lemma AppendKeepsNotes(messages: seq<Message>, m: Message, agent: AgentId)
    ensures Notes(messages + [m], agent) == Notes(messages, agent) + NotesOf(m, agent)
    ensures NotesOf(m, agent) == [] ==> Notes(messages + [m], agent) == Notes(messages, agent)
  {
    NotesConcat(messages, [m], agent);
    NotesSingle(m, agent);
  }

  lemma SayKeepsInv(net: Net, m: Message, next: Net)
    requires NetInv(net) && net.attached && next == net.(unsent := net.unsent + [m])
    requires m.Other? || (m.TerminalViewport? && m.agent in net.sys.book.sequences && !Pending(net.unsent, m.agent))
    ensures NetInv(next)
  {
    assert Pipeline(next) == Pipeline(net) + [m];
    forall agent
      ensures AgentOk(next, agent)
    {
      assert AgentOk(net, agent);
      AppendKeepsNotes(Pipeline(net), m, agent);
    }
  }

  function FrameDrawn(net: Net, a: Action): Option<Message>
    requires a.Draw?
  {
    NextFrame(net.sys.book, a.agent, a.forceFull, a.terminal).1
  }

  lemma DrawExtends(net: Net, a: Action)
    requires a.Draw? && Enabled(net, a)
    ensures var frame, next := FrameDrawn(net, a), Next(net, a);
            && next.unsent == net.unsent + (if frame.Some? then [frame.value] else [])
            && Pipeline(next) == Pipeline(net) + if frame.Some? then [frame.value] else []
  {
  }

  lemma DrawKeepsSent(net: Net, a: Action)
    requires S.Inv(net.sys) && AllSent(net) && a.Draw? && Enabled(net, a)
    ensures AllSent(Next(net, a))
  {
    DrawExtends(net, a);
  }

  lemma DrawKeepsTidy(net: Net, a: Action)
    requires Tidy(net) && a.Draw? && Enabled(net, a)
    ensures Tidy(Next(net, a))
  {
    DrawExtends(net, a);
  }

  lemma DrawKeepsInv(net: Net, a: Action)
    requires NetInv(net) && a.Draw? && Enabled(net, a)
    ensures NetInv(Next(net, a))
  {
    var next := Next(net, a);
    var frame := FrameDrawn(net, a);
    S.StepKeepsInv(net.sys, S.Emit(a.agent, a.forceFull, a.terminal));
    DrawExtends(net, a);
    DrawKeepsSent(net, a);
    DrawKeepsTidy(net, a);
    forall agent
      ensures AgentOk(next, agent)
    {
      assert AgentOk(net, agent);
      DrawnStream(net.sys, a.agent, a.forceFull, a.terminal, Notes(Pipeline(net), agent), agent);
      if frame.Some? {
        AppendKeepsNotes(Pipeline(net), frame.value, agent);
      } else {
        assert Pipeline(net) + [] == Pipeline(net) && Notes(Pipeline(net), agent) + [] == Notes(Pipeline(net), agent);
      }
    }
  }

  /** A new frame continues the stream of its agent and leaves the others alone. */
  lemma DrawnStream(
    s: S.System, drawn: AgentId, forceFull: bool, terminal: TerminalSnapshot, notes: seq<Note>, agent: AgentId)
    requires S.Inv(s) && Valid(terminal) && StreamOk(s, notes, agent)
    ensures var frame := NextFrame(s.book, drawn, forceFull, terminal).1;
            var s' := S.Next(s, S.Emit(drawn, forceFull, terminal));
            StreamOk(s', notes + if frame.Some? then NotesOf(frame.value, agent) else [], agent)
  {
    assert notes + [] == notes;
    if drawn == agent && agent in s.book.sequences && s.book.sequences[agent] < MAX_U64 {
      var t, k := Held(s.client, agent), s.book.sequences[agent];
      HealthyAppendFull(t, notes, k, agent in s.book.bases);
      if agent in s.book.bases {
        HealthyAppendDiff(t, notes, k);
      }
    }
  }

  lemma CloseKeepsInv(net: Net, agent: AgentId)
    requires NetInv(net) && Enabled(net, Close(agent))
    ensures NetInv(Next(net, Close(agent)))
  {
    var next := Next(net, Close(agent));
    S.StepKeepsInv(net.sys, S.Remove(agent));
    assert net.attached ==> Pipeline(next) == Pipeline(net) + [AgentGone(agent)];
    forall i | 0 <= i < |net.unsent| && Q.IsTerminal(net.unsent[i])
      ensures Q.TerminalFrame(net.unsent[i]).value.0 != agent
    {
      assert !Q.IsOf(net.unsent[i], agent);
    }
    assert !net.attached ==> Pipeline(next) == Pipeline(net);
    forall other
      ensures AgentOk(next, other)
    {
      assert AgentOk(net, other);
      AppendKeepsNotes(Pipeline(net), AgentGone(agent), other);
      ClosedStream(net.sys, agent, Notes(Pipeline(net), other), net.attached, other);
    }
  }

  /** A removed agent's stream ends in its departure, which never makes a gap. */
  lemma ClosedStream(s: S.System, closed: AgentId, notes: seq<Note>, told: bool, agent: AgentId)
    requires S.Inv(s) && closed in s.book.sequences && StreamOk(s, notes, agent)
    ensures StreamOk(
              S.Next(s, S.Remove(closed)), if told then notes + NotesOf(AgentGone(closed), agent) else notes, agent)
  {
    var t := Held(s.client, agent);
    assert notes + [] == notes;
    if agent == closed {
      FollowConcat(t, notes, [GoneNote]);
      assert Fits(Follow(t, notes), [GoneNote]);
    }
  }

  // ---------------------------------------------------------------------------------------------
  // The other steps
  // ---------------------------------------------------------------------------------------------

  lemma FreshClientStream(s: S.System, agent: AgentId)
    requires S.Inv(s) && s.client == EMPTY && s.book.bases == map[]
    ensures StreamOk(s, [], agent)
  {
  }

  lemma HangupKeepsInv(net: Net)
    requires S.Inv(net.sys)
    ensures NetInv(Hangup(net)) && NetInv(Hangup(net).(attached := true))
  {
    var cleared := S.Next(net.sys, S.ClearBases);
    S.StepKeepsInv(net.sys, S.ClearBases);
    S.StepKeepsInv(cleared, S.NewClient);
    var end := Hangup(net);
    assert Pipeline(end) == [];
    forall agent
      ensures AgentOk(end, agent) && AgentOk(end.(attached := true), agent)
    {
      FreshClientStream(end.sys, agent);
    }
  }

  predicate IsQuiet(a: S.Action) {
    a.Register? || a.ClearBases? || a.Ack? || a.Scroll?
  }

  /** Registering, clearing bases, acknowledging and scrolling change no number on either side. */
  lemma QuietStepKeepsNumbers(s: S.System, a: S.Action)
    requires IsQuiet(a)
    ensures var s' := S.Next(s, a);
            && s'.sent == s.sent
            && (forall agent :: Held(s'.client, agent) == Held(s.client, agent))
            && (forall agent | agent in s'.book.bases :: agent in s.book.bases)
            && (forall agent | agent in s.book.sequences ::
                  agent in s'.book.sequences
                    && (agent in s.used ==> s'.book.sequences[agent] == s.book.sequences[agent]))
            && (forall agent | agent in s'.book.sequences && agent !in s.book.sequences ::
                  agent !in s.used && s'.book.sequences[agent] == 0)
            && (forall agent | agent in s.used :: agent in s'.used)
            && (forall agent | agent in s'.used :: agent in s.used || agent in s'.book.sequences)
  {
  }

  lemma QuietStream(s: S.System, a: S.Action, notes: seq<Note>, agent: AgentId)
    requires S.Inv(s) && IsQuiet(a) && StreamOk(s, notes, agent)
    ensures StreamOk(S.Next(s, a), notes, agent)
  {
    QuietStepKeepsNumbers(s, a);
    QuietChange(s, S.Next(s, a), notes, agent);
  }

  lemma QuietChange(s: S.System, s': S.System, notes: seq<Note>, agent: AgentId)
    requires StreamOk(s, notes, agent) && Held(s'.client, agent) == Held(s.client, agent)
    requires agent in s.book.sequences ==> agent in s.used && agent in s'.book.sequences
    requires agent in s.book.sequences ==> s'.book.sequences[agent] == s.book.sequences[agent]
    requires agent in s'.book.bases ==> agent in s.book.bases
    requires agent in s'.book.sequences && agent !in s.book.sequences ==>
             agent !in s.used && s'.book.sequences[agent] == 0
    requires agent in s.used ==> agent in s'.used
    requires agent in s'.used ==> agent in s.used || agent in s'.book.sequences
    requires agent in s.book.bases ==> agent in s.book.sequences
    ensures StreamOk(s', notes, agent)
  {
    assert Healthy(None, [], 0, false);
  }

  lemma QuietStepKeepsInv(net: Net, a: S.Action)
    requires NetInv(net) && IsQuiet(a)
    ensures NetInv(net.(sys := S.Next(net.sys, a)))
  {
    var next := net.(sys := S.Next(net.sys, a));
    S.StepKeepsInv(net.sys, a);
    QuietStepKeepsNumbers(net.sys, a);
    forall agent
      ensures AgentOk(next, agent)
    {
      assert AgentOk(net, agent);
      QuietStream(net.sys, a, Notes(Pipeline(net), agent), agent);
    }
  }

  // ---------------------------------------------------------------------------------------------
  // Pushing
  // ---------------------------------------------------------------------------------------------

  lemma {:induction false} EvictionSparesOthers(frames: seq<Message>, evicted: AgentId, agent: AgentId)
    requires agent != evicted
    ensures Notes(Q.Without(frames, evicted), agent) == Notes(frames, agent)
  {
    if |frames| > 0 {
      EvictionSparesOthers(frames[1..], evicted, agent);
      if !Q.IsOf(frames[0], evicted) {
        assert ([frames[0]] + Q.Without(frames[1..], evicted))[1..] == Q.Without(frames[1..], evicted);
      } else {
        assert NotesOf(frames[0], agent) == [];
        assert [] + Notes(frames[1..], agent) == Notes(frames[1..], agent);
      }
    }
  }

  lemma {:induction false} EvictionTakesAll(frames: seq<Message>, agent: AgentId)
    requires AllNumbered(Notes(frames, agent))
    ensures Notes(Q.Without(frames, agent), agent) == []
  {
    if |frames| > 0 {
      AllNumberedConcat(NotesOf(frames[0], agent), Notes(frames[1..], agent));
      EvictionTakesAll(frames[1..], agent);
      if !Q.IsOf(frames[0], agent) {
        NotAFrameOf(frames[0], agent);
        assert ([frames[0]] + Q.Without(frames[1..], agent))[1..] == Q.Without(frames[1..], agent);
      }
    }
  }

  lemma NotAFrameOf(m: Message, agent: AgentId)
    requires !Q.IsOf(m, agent) && AllNumbered(NotesOf(m, agent))
    ensures NotesOf(m, agent) == []
  {
    GoneIsNotNumbered();
  }

  lemma GoneIsNotNumbered()
    ensures !AllNumbered([GoneNote])
  {
    assert !Numbered([GoneNote][0]);
  }

  lemma {:induction false} NothingPending(messages: seq<Message>, agent: AgentId)
    requires forall i | 0 <= i < |messages| :: !Q.IsOf(messages[i], agent)
    requires AllNumbered(Notes(messages, agent))
    ensures Notes(messages, agent) == []
  {
    if |messages| > 0 {
      AllNumberedConcat(NotesOf(messages[0], agent), Notes(messages[1..], agent));
      NotAFrameOf(messages[0], agent);
      NothingPending(messages[1..], agent);
    }
  }

  predicate IsFrame(m: Message, agent: AgentId, n: u64) {
    IsNumbered(m) && m.agent == agent && m.sequence == n
  }

  lemma HoldsConcat(a: seq<Note>, b: seq<Note>, n: u64)
    ensures Holds(a + b, n) <==> Holds(a, n) || Holds(b, n)
  {
    var c := a + b;
    assert forall i | 0 <= i < |a| :: c[i] == a[i];
    assert forall i | 0 <= i < |b| :: c[|a| + i] == b[i];
    if Holds(c, n) {
      var i :| 0 <= i < |c| && Numbered(c[i]) && c[i].n == n;
      if i >= |a| {
        assert b[i - |a|] == c[i];
      }
    }
  }

  lemma HoldsOne(m: Message, agent: AgentId, n: u64)
    ensures Holds(NotesOf(m, agent), n) <==> IsFrame(m, agent, n)
  {
    var notes := NotesOf(m, agent);
    if IsFrame(m, agent, n) {
      assert Numbered(notes[0]) && notes[0].n == n;
    }
  }

  lemma {:induction false} HoldsMeansQueued(frames: seq<Message>, agent: AgentId, n: u64)
    ensures Holds(Notes(frames, agent), n) <==>
            exists i | 0 <= i < |frames| :: IsNumbered(frames[i]) && frames[i].agent == agent && frames[i].sequence == n
  {
    FramesHold(frames, agent, n);
    assert forall i | 0 <= i < |frames| ::
        IsFrame(frames[i], agent, n) <==>
        IsNumbered(frames[i]) && frames[i].agent == agent && frames[i].sequence == n;
  }

  lemma {:induction false} FramesHold(frames: seq<Message>, agent: AgentId, n: u64)
    ensures Holds(Notes(frames, agent), n) <==> exists i | 0 <= i < |frames| :: IsFrame(frames[i], agent, n)
  {
    if |frames| > 0 {
      var rest := frames[1..];
      FramesHold(rest, agent, n);
      HoldsOne(frames[0], agent, n);
      HoldsConcat(NotesOf(frames[0], agent), Notes(rest, agent), n);
      assert forall i | 0 <= i < |rest| :: rest[i] == frames[i + 1];
      if i :| 0 < i < |frames| && IsFrame(frames[i], agent, n) {
        assert IsFrame(rest[i - 1], agent, n);
      }
    }
  }

  /** The three parts of a stream, as seen by the agent's own notes. */
  lemma PipelineNotes(net: Net, agent: AgentId)
    ensures Notes(Pipeline(net), agent) == Notes(net.wire, agent) + Notes(net.queue, agent) + Notes(net.unsent, agent)
  {
    NotesConcat(net.wire + net.queue, net.unsent, agent);
    NotesConcat(net.wire, net.queue, agent);
  }

  /** Room in the queue: the message moves over and the pipeline stays what it was. */
  lemma PushWithRoom(net: Net, terminal: TerminalSnapshot)
    requires NetInv(net) && Enabled(net, PushNext(terminal)) && |net.queue| < Q.CONNECTION_QUEUE
    ensures NetInv(Next(net, PushNext(terminal)))
  {
    var next := Next(net, PushNext(terminal));
    assert Pipeline(next) == Pipeline(net);
    forall agent
      ensures AgentOk(next, agent)
    {
      assert AgentOk(net, agent);
    }
  }

  /** What a full frame or viewport does to a full queue that holds frames of its agent. */
  function Swapped(net: Net, agent: AgentId): Net
    requires |net.unsent| > 0
  {
    net.(queue := Q.Without(net.queue, agent) + [net.unsent[0]], unsent := net.unsent[1..])
  }

  lemma PushCompleteSwaps(net: Net, terminal: TerminalSnapshot)
    requires Enabled(net, PushNext(terminal)) && |net.queue| == Q.CONNECTION_QUEUE
    requires net.unsent[0].TerminalFull? || net.unsent[0].TerminalViewport?
    requires |Q.Without(net.queue, net.unsent[0].agent)| < Q.CONNECTION_QUEUE
    ensures Next(net, PushNext(terminal)) == Swapped(net, net.unsent[0].agent)
  {
  }

  lemma SwapKeepsSent(net: Net, agent: AgentId)
    requires |net.unsent| > 0 && AllSent(net) && Tidy(net)
    ensures AllSent(Swapped(net, agent)) && Tidy(Swapped(net, agent))
  {
    var next := Swapped(net, agent);
    assert net.unsent == [net.unsent[0]] + next.unsent;
    forall x | x in Pipeline(next) && IsNumbered(x)
      ensures x in next.sys.sent
    {
      assert x in Pipeline(net);
    }
  }

  lemma SwappedNotes(net: Net, evicted: AgentId, agent: AgentId)
    requires |net.unsent| > 0
    ensures var head, rest := NotesOf(net.unsent[0], agent), Notes(net.unsent[1..], agent);
            && Notes(Pipeline(Swapped(net, evicted)), agent)
               == Notes(net.wire, agent) + (Notes(Q.Without(net.queue, evicted), agent) + head) + rest
            && Notes(Pipeline(net), agent) == Notes(net.wire, agent) + Notes(net.queue, agent) + (head + rest)
  {
    PipelineNotes(net, agent);
    PipelineNotes(Swapped(net, evicted), agent);
    NotesConcat(Q.Without(net.queue, evicted), [net.unsent[0]], agent);
    NotesSingle(net.unsent[0], agent);
  }

  lemma Rebracket<T>(a: seq<T>, b: seq<T>, c: seq<T>, d: seq<T>)
    ensures a + (b + c) + d == a + b + (c + d)
  {
  }

  lemma NothingAround<T>(a: seq<T>, b: seq<T>)
    ensures a + ([] + b) + [] == a + b && b + [] == b
  {
  }

  lemma NothingBefore(note: Note)
    ensures [] + [] + [note] == [note]
  {
  }

  lemma SwapSparesOthers(net: Net, evicted: AgentId, agent: AgentId)
    requires |net.unsent| > 0 && agent != evicted
    ensures Notes(Pipeline(Swapped(net, evicted)), agent) == Notes(Pipeline(net), agent)
  {
    SwappedNotes(net, evicted, agent);
    EvictionSparesOthers(net.queue, evicted, agent);
    Rebracket(
      Notes(net.wire, agent), Notes(net.queue, agent), NotesOf(net.unsent[0], agent), Notes(net.unsent[1..], agent));
  }

  lemma SwapOwnNotes(net: Net, agent: AgentId)
    requires Tidy(net) && |net.unsent| > 0 && Q.IsOf(net.unsent[0], agent)
    requires AllNumbered(Notes(Pipeline(net), agent))
    ensures agent in net.sys.book.sequences
    ensures Notes(Pipeline(Swapped(net, agent)), agent) == Notes(net.wire, agent) + NotesOf(net.unsent[0], agent)
    ensures Notes(Pipeline(net), agent) ==
            Notes(net.wire, agent) + Notes(net.queue, agent) + NotesOf(net.unsent[0], agent)
  {
    SwappedNotes(net, agent, agent);
    OwnNotes(net, Q.Without(net.queue, agent), net.unsent[1..]);
    NothingAround(Notes(net.wire, agent), NotesOf(net.unsent[0], agent));
  }

  /** Of the agent whose frame comes next, eviction takes every queued note, and nothing else is waiting. */
  lemma OwnNotes(net: Net, kept: seq<Message>, rest: seq<Message>)
    requires Tidy(net) && |net.unsent| > 0 && Q.IsTerminal(net.unsent[0]) && rest == net.unsent[1..]
    requires AllNumbered(Notes(Pipeline(net), Q.TerminalFrame(net.unsent[0]).value.0))
    requires kept == Q.Without(net.queue, Q.TerminalFrame(net.unsent[0]).value.0)
    ensures var agent := Q.TerminalFrame(net.unsent[0]).value.0;
            && agent in net.sys.book.sequences
            && Notes(kept, agent) == [] && Notes(rest, agent) == []
  {
    var m := net.unsent[0];
    var agent := Q.TerminalFrame(m).value.0;
    PipelineNotes(net, agent);
    var w, q, u := Notes(net.wire, agent), Notes(net.queue, agent), Notes(net.unsent, agent);
    var r := Notes(rest, agent);
    assert u == NotesOf(m, agent) + r;
    AllNumberedConcat(w + q, u);
    AllNumberedConcat(w, q);
    AllNumberedConcat(NotesOf(m, agent), r);
    EvictionTakesAll(net.queue, agent);
    NothingPending(rest, agent);
  }

  lemma PushCompleteKeepsInv(net: Net, terminal: TerminalSnapshot)
    requires NetInv(net) && Enabled(net, PushNext(terminal)) && |net.queue| == Q.CONNECTION_QUEUE
    requires net.unsent[0].TerminalFull? || net.unsent[0].TerminalViewport?
    requires |Q.Without(net.queue, net.unsent[0].agent)| < Q.CONNECTION_QUEUE
    ensures !Loses(net, PushNext(terminal)) ==> NetInv(Next(net, PushNext(terminal)))
    ensures Loses(net, PushNext(terminal)) ==> !Converged(Next(net, PushNext(terminal)))
  {
    var agent := net.unsent[0].agent;
    var next := Swapped(net, agent);
    PushCompleteSwaps(net, terminal);
    SwapKeepsSent(net, agent);
    SwappedStream(net, agent);
    if !Loses(net, PushNext(terminal)) {
      forall other
        ensures AgentOk(next, other)
      {
        assert AgentOk(net, other);
        if other != agent {
          SwapSparesOthers(net, agent, other);
        }
      }
    } else {
      HeadedFor(next, agent);
    }
  }

  lemma SwappedStream(net: Net, agent: AgentId)
    requires NetInv(net) && |net.unsent| > 0 && Q.IsOf(net.unsent[0], agent)
    requires net.unsent[0].TerminalFull? || net.unsent[0].TerminalViewport?
    ensures !HoldsNewest(net, agent) ==> AgentOk(Swapped(net, agent), agent)
    ensures HoldsNewest(net, agent) ==>
              Follow(Held(net.sys.client, agent), Notes(Pipeline(Swapped(net, agent)), agent))
              != Some(net.sys.book.bases[agent].sequence)
  {
    assert AgentOk(net, agent);
    SwapOwnNotes(net, agent);
    var t, k, basis := Held(net.sys.client, agent), net.sys.book.sequences[agent], agent in net.sys.book.bases;
    HealthyEvict(t, Notes(net.wire, agent), Notes(net.queue, agent), NotesOf(net.unsent[0], agent), k, basis);
    HoldsMeansQueued(net.queue, agent, k);
    assert basis ==> net.sys.book.bases[agent].sequence == k;
  }

  lemma ReplacedKeepsSent(net: Net, next: Net, evicted: AgentId, queued: seq<Message>, frame: Message)
    requires |net.unsent| > 0 && AllSent(net) && Tidy(net)
    requires next.wire == net.wire && next.unsent == net.unsent[1..]
    requires next.queue == Q.Without(net.queue, evicted) + queued + [frame]
    requires forall x | x in queued :: x == net.unsent[0]
    requires next.sys.sent == net.sys.sent + {frame} && net.sys.book.sequences.Keys <= next.sys.book.sequences.Keys
    ensures AllSent(next) && Tidy(next)
  {
    forall x | x in Pipeline(next) && IsNumbered(x)
      ensures x in next.sys.sent
    {
      if x != frame {
        assert x in Pipeline(net);
      }
    }
  }

  /** A frame is made anew for the evicted agent and takes the place of everything evicted. */
  lemma PushReplaced(net: Net, terminal: TerminalSnapshot, evicted: AgentId, queued: seq<Message>)
    requires NetInv(net) && Enabled(net, PushNext(terminal)) && evicted in net.sys.book.sequences
    requires queued == if Q.IsTerminal(net.unsent[0]) then [] else [net.unsent[0]]
    requires Q.IsTerminal(net.unsent[0]) ==> Q.IsOf(net.unsent[0], evicted)
    requires net.sys.book.sequences[evicted] < MAX_U64
    requires |Q.Without(net.queue, evicted)| + |queued| < Q.CONNECTION_QUEUE
    ensures var frame := NextFrame(net.sys.book, evicted, true, terminal).1.value;
            NetInv(Net(
                     S.Next(net.sys, S.Emit(evicted, true, terminal)), true, net.unsent[1..],
                     Q.Without(net.queue, evicted) + queued + [frame], net.wire))
  {
    var frame := NextFrame(net.sys.book, evicted, true, terminal).1.value;
    var sys := S.Next(net.sys, S.Emit(evicted, true, terminal));
    var next := Net(sys, true, net.unsent[1..], Q.Without(net.queue, evicted) + queued + [frame], net.wire);
    S.StepKeepsInv(net.sys, S.Emit(evicted, true, terminal));
    ReplacedKeepsSent(net, next, evicted, queued, frame);
    forall agent
      ensures AgentOk(next, agent)
    {
      assert AgentOk(net, agent);
      ReplacedStream(net, terminal, evicted, queued, agent);
    }
  }

  /** The pipeline after the replacement, and the notes of one agent in it. */
  lemma ReplacedNotes(net: Net, evicted: AgentId, queued: seq<Message>, frame: Message, next: Net, agent: AgentId)
    requires |net.unsent| > 0 && next.wire == net.wire && next.unsent == net.unsent[1..]
    requires next.queue == Q.Without(net.queue, evicted) + queued + [frame]
    ensures Notes(Pipeline(next), agent)
         == Notes(net.wire, agent)
            + (Notes(Q.Without(net.queue, evicted), agent) + Notes(queued, agent) + NotesOf(frame, agent))
            + Notes(net.unsent[1..], agent)
  {
    var kept := Q.Without(net.queue, evicted);
    PipelineNotes(next, agent);
    NotesConcat(kept + queued, [frame], agent);
    NotesConcat(kept, queued, agent);
    NotesSingle(frame, agent);
  }

  lemma QueuedNotes(m: Message, queued: seq<Message>, evicted: AgentId, agent: AgentId)
    requires queued == if Q.IsTerminal(m) then [] else [m]
    requires Q.IsTerminal(m) ==> Q.IsOf(m, evicted)
    ensures agent != evicted ==> Notes(queued, agent) == NotesOf(m, agent)
  {
    NotesSingle(m, agent);
  }

  lemma ReplacedSparesOthers(
    net: Net, evicted: AgentId, queued: seq<Message>, frame: Message, next: Net, agent: AgentId)
    requires |net.unsent| > 0 && next.wire == net.wire && next.unsent == net.unsent[1..] && agent != evicted
    requires next.queue == Q.Without(net.queue, evicted) + queued + [frame] && NotesOf(frame, agent) == []
    requires queued == if Q.IsTerminal(net.unsent[0]) then [] else [net.unsent[0]]
    requires Q.IsTerminal(net.unsent[0]) ==> Q.IsOf(net.unsent[0], evicted)
    ensures Notes(Pipeline(next), agent) == Notes(Pipeline(net), agent)
  {
    var w, q := Notes(net.wire, agent), Notes(net.queue, agent);
    var head, rest := NotesOf(net.unsent[0], agent), Notes(net.unsent[1..], agent);
    ReplacedNotes(net, evicted, queued, frame, next, agent);
    QueuedNotes(net.unsent[0], queued, evicted, agent);
    EvictionSparesOthers(net.queue, evicted, agent);
    PipelineNotes(net, agent);
    assert q + head + [] == q + head;
    Rebracket(w, q, head, rest);
  }

  lemma ReplacedStream(net: Net, terminal: TerminalSnapshot, evicted: AgentId, queued: seq<Message>, agent: AgentId)
    requires NetInv(net) && Enabled(net, PushNext(terminal)) && evicted in net.sys.book.sequences
    requires queued == if Q.IsTerminal(net.unsent[0]) then [] else [net.unsent[0]]
    requires Q.IsTerminal(net.unsent[0]) ==> Q.IsOf(net.unsent[0], evicted)
    requires net.sys.book.sequences[evicted] < MAX_U64
    ensures var frame := NextFrame(net.sys.book, evicted, true, terminal).1.value;
            AgentOk(
              Net(S.Next(net.sys, S.Emit(evicted, true, terminal)), true, net.unsent[1..],
                  Q.Without(net.queue, evicted) + queued + [frame], net.wire),
              agent)
  {
    var frame := NextFrame(net.sys.book, evicted, true, terminal).1.value;
    var sys := S.Next(net.sys, S.Emit(evicted, true, terminal));
    var next := Net(sys, true, net.unsent[1..], Q.Without(net.queue, evicted) + queued + [frame], net.wire);
    assert AgentOk(net, agent);
    if agent != evicted {
      ReplacedSparesOthers(net, evicted, queued, frame, next, agent);
      BystanderStream(net.sys, sys, Notes(Pipeline(net), agent), evicted, terminal, agent);
    } else {
      OwnReplacedStream(net, queued, frame, next, agent);
      ReplacedBookStream(net.sys, terminal, Notes(Pipeline(next), agent), frame.sequence, agent);
    }
  }

  lemma OwnReplacedStream(net: Net, queued: seq<Message>, frame: Message, next: Net, agent: AgentId)
    requires NetInv(net) && |net.unsent| > 0 && agent in net.sys.book.sequences
    requires queued == if Q.IsTerminal(net.unsent[0]) then [] else [net.unsent[0]]
    requires Q.IsTerminal(net.unsent[0]) ==> Q.IsOf(net.unsent[0], agent)
    requires net.sys.book.sequences[agent] < MAX_U64
    requires frame.TerminalFull? && frame.agent == agent && frame.sequence == net.sys.book.sequences[agent] + 1
    requires next.wire == net.wire && next.unsent == net.unsent[1..]
    requires next.queue == Q.Without(net.queue, agent) + queued + [frame]
    ensures Healthy(Held(net.sys.client, agent), Notes(Pipeline(next), agent), frame.sequence, true)
  {
    var w, r := Notes(net.wire, agent), Notes(net.unsent[1..], agent);
    ReplacedNotes(net, agent, queued, frame, next, agent);
    OwnReplacedNotes(net, queued, w, Notes(net.queue, agent), NotesOf(net.unsent[0], agent), r, frame.sequence, agent);
    NothingBefore(FullNote(frame.sequence));
  }

  lemma ReplacedBookStream(s: S.System, terminal: TerminalSnapshot, notes: seq<Note>, n: u64, agent: AgentId)
    requires S.Inv(s) && Valid(terminal) && agent in s.book.sequences && n - 1 == s.book.sequences[agent]
    requires Healthy(Held(s.client, agent), notes, n, true)
    ensures StreamOk(S.Next(s, S.Emit(agent, true, terminal)), notes, agent)
  {
  }

  lemma BystanderStream(
    s: S.System, s': S.System, notes: seq<Note>, drawn: AgentId, terminal: TerminalSnapshot, agent: AgentId)
    requires StreamOk(s, notes, agent) && agent != drawn
    requires s' == S.Next(s, S.Emit(drawn, true, terminal))
    ensures StreamOk(s', notes, agent)
  {
  }

  lemma OwnReplacedNotes(
    net: Net, queued: seq<Message>, w: seq<Note>, q: seq<Note>, head: seq<Note>, r: seq<Note>, n: u64, agent: AgentId)
    requires NetInv(net) && |net.unsent| > 0 && agent in net.sys.book.sequences
    requires queued == if Q.IsTerminal(net.unsent[0]) then [] else [net.unsent[0]]
    requires Q.IsTerminal(net.unsent[0]) ==> Q.IsOf(net.unsent[0], agent)
    requires w == Notes(net.wire, agent) && q == Notes(net.queue, agent)
    requires head == NotesOf(net.unsent[0], agent) && r == Notes(net.unsent[1..], agent)
    requires n - 1 == net.sys.book.sequences[agent]
    ensures Notes(Q.Without(net.queue, agent), agent) == [] && Notes(queued, agent) == []
    ensures Healthy(Held(net.sys.client, agent), w + [FullNote(n)] + r, n, true)
  {
    var m := net.unsent[0];
    assert AgentOk(net, agent);
    PipelineNotes(net, agent);
    assert Notes(net.unsent, agent) == head + r;
    AllNumberedConcat(w + q, head + r);
    AllNumberedConcat(w, q);
    AllNumberedConcat(head, r);
    EvictionTakesAll(net.queue, agent);
    NotesSingle(m, agent);
    if Q.IsTerminal(m) {
      OwnNotes(net, Q.Without(net.queue, agent), net.unsent[1..]);
    } else {
      NotAFrameOf(m, agent);
    }
    HealthyReplaceFirst(
      Held(net.sys.client, agent), w, q, head, r, net.sys.book.sequences[agent], n, agent in net.sys.book.bases);
  }

  lemma PushKeepsInv(net: Net, terminal: TerminalSnapshot)
    requires NetInv(net) && Enabled(net, PushNext(terminal))
    ensures !Loses(net, PushNext(terminal)) ==> NetInv(Next(net, PushNext(terminal)))
    ensures Loses(net, PushNext(terminal)) ==> !Converged(Next(net, PushNext(terminal)))
  {
    var m := net.unsent[0];
    var q0 := Q.QueueState(net.queue, false);
    HangupKeepsInv(net);
    Q.RefusalChangesNothing(q0, m);
    if |net.queue| < Q.CONNECTION_QUEUE {
      PushWithRoom(net, terminal);
    } else if (m.TerminalFull? || m.TerminalViewport?) {
      Q.RefusedExactlyWhenNothingToEvict(q0, m);
      if Q.Push(q0, m).1 != Q.Full {
        PushCompleteKeepsInv(net, terminal);
      } else {
        RefusedHoldsNothing(net, m.agent);
      }
    } else if Q.Push(q0, m).1 != Q.Full {
      var evicted := Q.Push(q0, m).1.agent;
      var queued := if Q.IsTerminal(m) then [] else [m];
      assert Q.Push(q0, m).0.frames == Q.Without(net.queue, evicted) + queued;
      PushMaybeReplaced(net, terminal, evicted, queued);
    }
  }

  lemma RefusedHoldsNothing(net: Net, agent: AgentId)
    requires !exists queued | queued in net.queue :: Q.IsOf(queued, agent)
    ensures forall i | 0 <= i < |net.queue| && IsNumbered(net.queue[i]) :: net.queue[i].agent != agent
  {
    forall i | 0 <= i < |net.queue| && IsNumbered(net.queue[i])
      ensures net.queue[i].agent != agent
    {
      assert net.queue[i] in net.queue;
    }
  }

  lemma NextWithReplacement(net: Net, terminal: TerminalSnapshot, evicted: AgentId, queued: seq<Message>)
    requires Enabled(net, PushNext(terminal))
    requires Q.Push(Q.QueueState(net.queue, false), net.unsent[0]) ==
             (Q.QueueState(Q.Without(net.queue, evicted) + queued, false), Q.NeedsFull(evicted))
    requires NextFrame(net.sys.book, evicted, true, terminal).1.Some?
    requires |Q.Without(net.queue, evicted) + queued| < Q.CONNECTION_QUEUE
    ensures Next(net, PushNext(terminal)) ==
            Net(S.Next(net.sys, S.Emit(evicted, true, terminal)), true, net.unsent[1..],
                Q.Without(net.queue, evicted) + queued
                  + [NextFrame(net.sys.book, evicted, true, terminal).1.value], net.wire)
  {
  }

  lemma PushMaybeReplaced(net: Net, terminal: TerminalSnapshot, evicted: AgentId, queued: seq<Message>)
    requires NetInv(net) && Enabled(net, PushNext(terminal)) && |net.queue| == Q.CONNECTION_QUEUE
    requires !net.unsent[0].TerminalFull? && !net.unsent[0].TerminalViewport?
    requires queued == if Q.IsTerminal(net.unsent[0]) then [] else [net.unsent[0]]
    requires Q.Push(Q.QueueState(net.queue, false), net.unsent[0]) ==
             (Q.QueueState(Q.Without(net.queue, evicted) + queued, false), Q.NeedsFull(evicted))
    ensures NetInv(Next(net, PushNext(terminal)))
  {
    var frame := NextFrame(net.sys.book, evicted, true, terminal).1;
    if frame.Some? && |Q.Without(net.queue, evicted) + queued| < Q.CONNECTION_QUEUE {
      PushReplaced(net, terminal, evicted, queued);
      NextWithReplacement(net, terminal, evicted, queued);
    } else {
      NoReplacementHangsUp(net, terminal, evicted, queued);
      HangupKeepsInv(net);
    }
  }

  /** Without a replacement, or without room for it, the connection is lost. */
  lemma NoReplacementHangsUp(net: Net, terminal: TerminalSnapshot, evicted: AgentId, queued: seq<Message>)
    requires Enabled(net, PushNext(terminal))
    requires |queued| <= 1 && (|queued| == 1 ==> !Q.IsTerminal(queued[0]))
    requires Q.Push(Q.QueueState(net.queue, false), net.unsent[0]) ==
             (Q.QueueState(Q.Without(net.queue, evicted) + queued, false), Q.NeedsFull(evicted))
    requires var frame := NextFrame(net.sys.book, evicted, true, terminal).1;
             frame.Some? ==> |Q.Without(net.queue, evicted) + queued| == Q.CONNECTION_QUEUE
    ensures Next(net, PushNext(terminal)) == Hangup(net)
  {
    var frame := NextFrame(net.sys.book, evicted, true, terminal).1;
    if frame.Some? {
      NoRoomForReplacement(net, evicted, queued, Q.Without(net.queue, evicted) + queued, frame.value);
    }
  }

  /** When the message itself has filled the last place, no frame of the evicted agent is left to make room. */
  lemma NoRoomForReplacement(net: Net, evicted: AgentId, queued: seq<Message>, room: seq<Message>, frame: Message)
    requires room == Q.Without(net.queue, evicted) + queued && |room| == Q.CONNECTION_QUEUE
    requires |queued| <= 1 && (|queued| == 1 ==> !Q.IsTerminal(queued[0]))
    requires frame.TerminalFull? && frame.agent == evicted
    ensures Q.Push(Q.QueueState(room, false), frame).1 == Q.Full
  {
    Q.RefusedExactlyWhenNothingToEvict(Q.QueueState(room, false), frame);
    forall x | x in room
      ensures !Q.IsOf(x, evicted)
    {
      if x !in Q.Without(net.queue, evicted) {
        assert x in queued;
      }
    }
  }

  // ---------------------------------------------------------------------------------------------
  // Every run
  // ---------------------------------------------------------------------------------------------

  lemma StepKeepsInv(net: Net, a: Action)
    requires NetInv(net)
    ensures !Loses(net, a) ==> NetInv(Next(net, a))
    ensures Loses(net, a) ==> !Converged(Next(net, a))
  {
    if Enabled(net, a) {
      match a {
        case Spawn(agent) => QuietStepKeepsInv(net, S.Register(agent));
        case Close(agent) => CloseKeepsInv(net, agent);
        case ClearBases => QuietStepKeepsInv(net, S.ClearBases);
        case Draw(_, _, _) => DrawKeepsInv(net, a);
        case View(agent, requested, scrollback, snapshot) =>
          SayKeepsInv(net, TerminalViewport(agent, requested, scrollback, snapshot), Next(net, a));
        case Say(tag) => SayKeepsInv(net, Other(tag), Next(net, a));
        case PushNext(terminal) => PushKeepsInv(net, terminal);
        case Pop => PopKeepsInv(net);
        case Deliver => DeliverKeepsInv(net);
        case Attach => HangupKeepsInv(net);
        case Detach => HangupKeepsInv(net);
        case Ack(agent, sequence) => QuietStepKeepsInv(net, S.Ack(agent, sequence));
        case Scroll(agent, rows) => QuietStepKeepsInv(net, S.Scroll(agent, rows));
      }
    }
  }

  ghost predicate IsRun(states: seq<Net>, actions: seq<Action>) {
    && |states| == |actions| + 1 && states[0] == START
    && forall i | 0 <= i < |actions| :: states[i + 1] == Next(states[i], actions[i])
  }

  ghost predicate Lossless(states: seq<Net>, actions: seq<Action>, n: nat)
    requires n <= |actions| < |states|
  {
    forall i | 0 <= i < n :: !Loses(states[i], actions[i])
  }

  lemma {:induction false} LosslessRunKeepsInv(states: seq<Net>, actions: seq<Action>, n: nat)
    requires IsRun(states, actions) && n <= |actions| && Lossless(states, actions, n)
    ensures NetInv(states[n])
  {
    if n == 0 {
      forall agent
        ensures AgentOk(START, agent)
      {
        assert Notes(Pipeline(START), agent) == [];
      }
    } else {
      LosslessRunKeepsInv(states, actions, n - 1);
      StepKeepsInv(states[n - 1], actions[n - 1]);
    }
  }

  /**
   Main result: a run converges in all of its states exactly when none of its pushes loses an agent's newest
   frame.
   */
  lemma ConvergenceExactly(states: seq<Net>, actions: seq<Action>)
    requires IsRun(states, actions)
    ensures (forall i | 0 <= i < |states| :: Converged(states[i])) <==> Lossless(states, actions, |actions|)
  {
    if Lossless(states, actions, |actions|) {
      forall i | 0 <= i < |states|
        ensures Converged(states[i])
      {
        assert Lossless(states, actions, i);
        LosslessRunKeepsInv(states, actions, i);
        InvMeansConverged(states[i]);
      }
    } else {
      var n := FirstLoss(states, actions, |actions|);
      LosslessRunKeepsInv(states, actions, n);
      StepKeepsInv(states[n], actions[n]);
      assert !Converged(states[n + 1]);
    }
  }

  lemma {:induction false} FirstLoss(states: seq<Net>, actions: seq<Action>, upTo: nat) returns (n: nat)
    requires upTo <= |actions| < |states| && !Lossless(states, actions, upTo)
    ensures n < upTo && Lossless(states, actions, n) && Loses(states[n], actions[n])
  {
    if Lossless(states, actions, upTo - 1) {
      n := upTo - 1;
    } else {
      n := FirstLoss(states, actions, upTo - 1);
    }
  }

  /** In a run that has lost nothing, no delivered frame is a gap, so the client never has to ask for a screen again. */
  lemma NoResync(states: seq<Net>, actions: seq<Action>, n: nat)
    requires IsRun(states, actions) && n <= |actions| && Lossless(states, actions, n) && |states[n].wire| > 0
    ensures Sound(states[n].sys.client)
    ensures forall r | r in Receive(states[n].sys.client, states[n].wire[0]).1 :: !r.Resync?
  {
    LosslessRunKeepsInv(states, actions, n);
    var net := states[n];
    var m := net.wire[0];
    assert m in Pipeline(net);
    DeliverKeepsInv(net);
    if IsNumbered(m) {
      assert S.HonestFrame(net.sys.history, m);
      var t := Held(net.sys.client, m.agent);
      assert NotesOf(m, m.agent) == [NotesOf(m, m.agent)[0]];
      assert Fits(t, NotesOf(m, m.agent));
      if m.TerminalDiff? && m.agent in net.sys.client.terminals {
        var terminal := net.sys.client.terminals[m.agent];
        assert S.HonestScreen(net.sys.history, m.agent, terminal);
        if terminal.tracker.AcceptDiff(m.base, m.sequence).1 == Applied {
          S.AcceptedDiffApplies(net.sys.history, m.agent, terminal, m);
        }
      }
    }
  }

  // ---------------------------------------------------------------------------------------------
  // Losing pushes happen
  // ---------------------------------------------------------------------------------------------

  lemma Extend(states: seq<Net>, actions: seq<Action>, a: Action) returns (states': seq<Net>, actions': seq<Action>)
    requires IsRun(states, actions)
    ensures IsRun(states', actions') && actions' == actions + [a]
    ensures states'[|actions'|] == Next(states[|actions|], a) && states'[|actions|] == states[|actions|]
  {
    states', actions' := states + [Next(states[|actions|], a)], actions + [a];
  }

  /** A queue of 62 messages that are not frames, for a server with one agent. */
  ghost predicate Talking(net: Net, agent: AgentId, n: nat) {
    && net.attached && net.wire == [] && net.unsent == []
    && |net.queue| == n && (forall m | m in net.queue :: m.Other?)
    && net.sys.client == EMPTY && net.sys.book == BookState(map[agent := 0], map[])
  }

  lemma Talk(agent: AgentId, n: nat, terminal: TerminalSnapshot) returns (states: seq<Net>, actions: seq<Action>)
    requires n <= Q.CONNECTION_QUEUE && Valid(terminal)
    ensures IsRun(states, actions) && Talking(states[|actions|], agent, n)
  {
    states, actions := [START], [];
    states, actions := Extend(states, actions, Attach);
    states, actions := Extend(states, actions, Spawn(agent));
    for i := 0 to n
      invariant IsRun(states, actions) && Talking(states[|actions|], agent, i)
    {
      ghost var before := states[|actions|];
      states, actions := Extend(states, actions, Say(0));
      states, actions := Extend(states, actions, PushNext(terminal));
      assert states[|actions|] == before.(queue := before.queue + [Other(0)]);
    }
  }

  /** The state just before a losing push: two full frames, or a full frame and a viewport, have crossed. */
  lemma Draws(net: Net, agent: AgentId, n: u64, terminal: TerminalSnapshot)
    requires net.attached && !Pending(net.unsent, agent) && Valid(terminal) && Sound(net.sys.client)
    requires agent in net.sys.book.sequences && net.sys.book.sequences[agent] == n && n < MAX_U64
    ensures var next := Next(net, Draw(agent, true, terminal));
            && next.unsent == net.unsent + [TerminalFull(agent, n + 1, terminal)]
            && next.sys.book.sequences[agent := 0] == net.sys.book.sequences[agent := 0]
            && next.sys.book.sequences[agent] == n + 1
            && agent in next.sys.book.bases && next.sys.book.bases[agent].sequence == n + 1
            && next.sys.client == net.sys.client
            && next.attached && next.queue == net.queue && next.wire == net.wire
  {
  }

  /**
   A viewport pushed into a full queue takes the agent's only full frame with it: such a run exists for
   every agent and screen, and its last state is not converged.
   */
  lemma ViewportLosesScreen(agent: AgentId, terminal: TerminalSnapshot) returns (states: seq<Net>, actions: seq<Action>)
    requires Valid(terminal)
    ensures IsRun(states, actions) && |actions| > 0 && actions[|actions| - 1].PushNext?
    ensures states[|actions| - 1].unsent == [TerminalViewport(agent, 5, 5, terminal)]
    ensures Loses(states[|actions| - 1], actions[|actions| - 1])
  {
    states, actions := Talk(agent, 63, terminal);
    ghost var talking := states[|actions|];
    Draws(talking, agent, 0, terminal);
    states, actions := Extend(states, actions, Draw(agent, true, terminal));
    states, actions := Extend(states, actions, PushNext(terminal));
    ghost var drawn := states[|actions|];
    assert drawn.queue == talking.queue + [TerminalFull(agent, 1, terminal)];
    states, actions := Extend(states, actions, View(agent, 5, 5, terminal));
    ghost var net := states[|actions|];
    assert net.queue[63] == TerminalFull(agent, 1, terminal);
    assert HoldsNewest(net, agent);
    states, actions := Extend(states, actions, PushNext(terminal));
  }

  lemma {:induction false} TalkIsKept(frames: seq<Message>, more: seq<Message>, agent: AgentId)
    requires forall m | m in frames :: m.Other?
    ensures Q.Without(frames + more, agent) == frames + Q.Without(more, agent)
    ensures Q.FirstTerminal(frames + more) == Q.FirstTerminal(more)
  {
    if |frames| == 0 {
      assert frames + more == more;
    } else {
      assert (frames + more)[1..] == frames[1..] + more;
      TalkIsKept(frames[1..], more, agent);
      assert frames[0] in frames;
      assert [frames[0]] + (frames[1..] + Q.Without(more, agent)) == frames + Q.Without(more, agent);
    }
  }

  /** The queue of a losing push of an older full frame: the replacement made for an eviction is newer than it. */
  lemma ReplacementOvertakes(net: Net, agent: AgentId, terminal: TerminalSnapshot, talk: seq<Message>)
    requires net.attached && Valid(terminal) && Sound(net.sys.client)
    requires |talk| == 62 && forall m | m in talk :: m.Other?
    requires net.queue == talk + [TerminalFull(agent, 1, terminal), TerminalFull(agent, 2, terminal)]
    requires net.unsent == [Other(0), TerminalFull(agent, 3, terminal)]
    requires agent in net.sys.book.sequences && net.sys.book.sequences[agent] == 3
    ensures var next := Next(net, PushNext(terminal));
            && next.attached && next.unsent == [TerminalFull(agent, 3, terminal)]
            && next.queue == talk + [Other(0), TerminalFull(agent, 4, terminal)]
            && agent in next.sys.book.bases && next.sys.book.bases[agent].sequence == 4
  {
    var frames := [TerminalFull(agent, 1, terminal), TerminalFull(agent, 2, terminal)];
    TalkIsKept(talk, frames, agent);
    assert frames[1..] == [frames[1]] && frames[1..][1..] == [];
    assert Q.Without(frames, agent) == Q.Without(frames[1..], agent) == [];
    assert talk + [] == talk;
    var (q, r) := Q.Push(Q.QueueState(net.queue, false), Other(0));
    assert r == Q.NeedsFull(agent) && q.frames == talk + [Other(0)];
    assert net.unsent[1..] == [TerminalFull(agent, 3, terminal)];
    assert talk + [Other(0)] + [TerminalFull(agent, 4, terminal)] ==
      talk + [Other(0), TerminalFull(agent, 4, terminal)];
  }

  lemma TwoFramesQueued(agent: AgentId, terminal: TerminalSnapshot)
    returns (states: seq<Net>, actions: seq<Action>, talk: seq<Message>)
    requires Valid(terminal)
    ensures IsRun(states, actions) && |talk| == 62 && forall m | m in talk :: m.Other?
    ensures var net := states[|actions|];
            && net.attached && net.unsent == [] && net.sys.client == EMPTY
            && net.queue == talk + [TerminalFull(agent, 1, terminal), TerminalFull(agent, 2, terminal)]
            && agent in net.sys.book.sequences && net.sys.book.sequences[agent] == 2
  {
    states, actions := Talk(agent, 62, terminal);
    talk := states[|actions|].queue;
    Draws(states[|actions|], agent, 0, terminal);
    states, actions := Extend(states, actions, Draw(agent, true, terminal));
    states, actions := Extend(states, actions, PushNext(terminal));
    assert states[|actions|].queue == talk + [TerminalFull(agent, 1, terminal)];
    Draws(states[|actions|], agent, 1, terminal);
    states, actions := Extend(states, actions, Draw(agent, true, terminal));
    states, actions := Extend(states, actions, PushNext(terminal));
    assert states[|actions|].queue == talk + [TerminalFull(agent, 1, terminal), TerminalFull(agent, 2, terminal)];
  }

  /** Two frames in a full queue, and a message and a third frame still to be sent. */
  lemma ThirdFrameWaits(agent: AgentId, terminal: TerminalSnapshot)
    returns (states: seq<Net>, actions: seq<Action>, talk: seq<Message>)
    requires Valid(terminal)
    ensures IsRun(states, actions) && |talk| == 62 && forall m | m in talk :: m.Other?
    ensures var net := states[|actions|];
            && net.attached && net.unsent == [Other(0), TerminalFull(agent, 3, terminal)] && Sound(net.sys.client)
            && net.queue == talk + [TerminalFull(agent, 1, terminal), TerminalFull(agent, 2, terminal)]
            && agent in net.sys.book.sequences && net.sys.book.sequences[agent] == 3
  {
    states, actions, talk := TwoFramesQueued(agent, terminal);
    states, actions := Extend(states, actions, Say(0));
    Draws(states[|actions|], agent, 2, terminal);
    states, actions := Extend(states, actions, Draw(agent, true, terminal));
  }

  /**
   So does a full frame that an eviction has overtaken: the replacement, number 4, is evicted by number 3.
   */
  lemma OldFrameLosesScreen(agent: AgentId, terminal: TerminalSnapshot) returns (states: seq<Net>, actions: seq<Action>)
    requires Valid(terminal)
    ensures IsRun(states, actions) && |actions| > 0 && actions[|actions| - 1].PushNext?
    ensures states[|actions| - 1].unsent == [TerminalFull(agent, 3, terminal)]
    ensures Loses(states[|actions| - 1], actions[|actions| - 1])
  {
    ghost var talk;
    states, actions, talk := ThirdFrameWaits(agent, terminal);
    ReplacementOvertakes(states[|actions|], agent, terminal, talk);
    states, actions := Extend(states, actions, PushNext(terminal));
    ghost var net := states[|actions|];
    assert net.queue[63] == TerminalFull(agent, 4, terminal);
    assert HoldsNewest(net, agent);
    states, actions := Extend(states, actions, PushNext(terminal));
  }
}
