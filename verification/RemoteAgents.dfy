/**
 The client's copy of its agents' screens: what it does with each frame, and the requests it sends in
 return. The class follows the program; each method is proved against a function on `ClientState`.
 */
module RemoteAgents {
  import opened Basics
  import opened TerminalModel
  import opened Frames

  datatype ScrollbackView = ScrollbackView(snapshot: TerminalSnapshot, offset: nat)

  datatype CachedTerminal = CachedTerminal(
    snapshot: TerminalSnapshot,
    tracker: TerminalFrameTracker,
    scrollback: Option<ScrollbackView>,
    /** The request currently awaiting a viewport response. */
    request: Option<nat>,
    /** The latest offset asked for while a response is in flight. */
    target: Option<nat>)

  datatype ClientRequest =
    | Acknowledge(agent: AgentId, sequence: u64)
    | Resync(agent: AgentId, last: Option<u64>)
    | Viewport(agent: AgentId, scrollback: nat)

  datatype ClientState = ClientState(terminals: map<AgentId, CachedTerminal>, pendingResync: set<AgentId>)

  const EMPTY := ClientState(map[], {})

  function Live(terminal: CachedTerminal): CachedTerminal {
    terminal.(scrollback := None, request := None, target := None)
  }

  // ---------------------------------------------------------------------------------------------
  // Frames
  // ---------------------------------------------------------------------------------------------

  function ApplyFull(c: ClientState, agent: AgentId, sequence: u64, snapshot: TerminalSnapshot)
      : (ClientState, FrameDisposition)
  {
    if !Valid(snapshot) then (c, Gap)
    else
      var tracker := if agent in c.terminals then c.terminals[agent].tracker else UNTRACKED;
      var (next, disposition) := tracker.AcceptFull(sequence);
      if disposition != Applied then (c, disposition)
      else
        (ClientState(
           c.terminals[agent := CachedTerminal(snapshot, next, None, None, None)],
           c.pendingResync - {agent}), Applied)
  }

  function ApplyDiffTo(terminal: CachedTerminal, base: u64, sequence: u64, diff: SnapshotDiff)
      : (CachedTerminal, FrameDisposition)
    requires Valid(terminal.snapshot)
  {
    var (next, disposition) := terminal.tracker.AcceptDiff(base, sequence);
    if disposition != Applied then (terminal, disposition)
    else
      match Apply(terminal.snapshot, diff)
      case Ok(snapshot) => (terminal.(snapshot := snapshot, tracker := next), Applied)
      case Err(_) => (terminal.(tracker := next.Reset()), Gap)
  }

  predicate Sound(c: ClientState) {
    forall agent | agent in c.terminals :: Valid(c.terminals[agent].snapshot)
  }

  function ApplyDiff(c: ClientState, agent: AgentId, base: u64, sequence: u64, diff: SnapshotDiff)
    : (ClientState, FrameDisposition)
    requires Sound(c)
  {
    if agent !in c.terminals then (c, Gap)
    else
      var (terminal, disposition) := ApplyDiffTo(c.terminals[agent], base, sequence, diff);
      (c.(terminals := c.terminals[agent := terminal]), disposition)
  }

  function FollowUp(c: ClientState, agent: AgentId, sequence: u64, disposition: FrameDisposition)
    : (ClientState, seq<ClientRequest>)
  {
    if disposition != Gap then (c, [Acknowledge(agent, sequence)])
    else if agent in c.pendingResync then (c, [])
    else
      (c.(pendingResync := c.pendingResync + {agent}),
       [Resync(agent, if agent in c.terminals then c.terminals[agent].tracker.sequence else None)])
  }

  // ---------------------------------------------------------------------------------------------
  // Scrolling
  // ---------------------------------------------------------------------------------------------

  /** What a viewport answer does to the terminal, whether it is shown, and the request that follows it. */
  function Answer(t: CachedTerminal, requested: nat, scrollback: nat, snapshot: TerminalSnapshot)
      : (CachedTerminal, bool, Option<nat>)
  {
    if t.request != Some(requested) then (t, false, None)
    else
      var t := t.(request := None);
      if t.target != Some(requested) then
        if t.target.None? then (t, false, None)
        else (t.(request := t.target), false, t.target)
      else if scrollback == 0 then (t.(scrollback := None, target := None), true, None)
      else if !Valid(snapshot) then (t, false, None)
      else (t.(scrollback := Some(ScrollbackView(snapshot, scrollback)), target := Some(scrollback)), true, None)
  }

  /** Where the next scroll counts from: the pending target, else the offset shown, else the live screen. */
  function Position(t: CachedTerminal): nat {
    if t.target.Some? then t.target.value else if t.scrollback.Some? then t.scrollback.value.offset else 0
  }

  const MAX_USIZE: nat := 0xFFFF_FFFF_FFFF_FFFF

  /** `saturating_add` and `saturating_sub` of a signed number of rows. */
  function Moved(current: nat, rows: int): nat {
    if rows >= 0 then if current + rows > MAX_USIZE then MAX_USIZE else current + rows
    else if current + rows < 0 then 0 else current + rows
  }

  function ScrollTerminal(t: CachedTerminal, rows: int): (CachedTerminal, Option<nat>) {
    var requested := Moved(Position(t), rows);
    if requested == 0 then (t.(target := None, scrollback := None), None)
    else if t.request.Some? then (t.(target := Some(requested)), None)
    else (t.(target := Some(requested), request := Some(requested)), Some(requested))
  }

  // ---------------------------------------------------------------------------------------------
  // Every message
  // ---------------------------------------------------------------------------------------------

  /** The client after one message from the server, and what it sends back. */
  function Receive(c: ClientState, m: Message): (ClientState, seq<ClientRequest>)
    requires Sound(c)
  {
    match m
    case TerminalFull(agent, sequence, snapshot) =>
      var (next, disposition) := ApplyFull(c, agent, sequence, snapshot);
      FollowUp(next, agent, sequence, disposition)
    case TerminalDiff(agent, base, sequence, diff) =>
      var (next, disposition) := ApplyDiff(c, agent, base, sequence, diff);
      FollowUp(next, agent, sequence, disposition)
    case TerminalViewport(agent, requested, scrollback, snapshot) =>
      if agent !in c.terminals then (c, [])
      else
        var (terminal, _, again) := Answer(c.terminals[agent], requested, scrollback, snapshot);
        (c.(terminals := c.terminals[agent := terminal]), if again.Some? then [Viewport(agent, again.value)] else [])
    case AgentGone(agent) => (ClientState(c.terminals - {agent}, c.pendingResync - {agent}), [])
    case Other(_) => (c, [])
  }

  class Client {
    var terminals: map<AgentId, CachedTerminal>
    var pendingResync: set<AgentId>
    /** The requests written to the server, oldest first. */
    var sent: seq<ClientRequest>

    function State(): ClientState
      reads this
    {
      ClientState(terminals, pendingResync)
    }

    constructor ()
      ensures State() == EMPTY && sent == []
    {
      terminals, pendingResync, sent := map[], {}, [];
    }

    method Handle(m: Message)
      requires Sound(State())
      modifies this
      ensures Sound(State())
      ensures State() == Receive(old(State()), m).0
      ensures sent == old(sent) + Receive(old(State()), m).1
    {
      match m {
        case TerminalFull(agent, sequence, snapshot) =>
          var disposition := TakeFull(agent, sequence, snapshot);
          AfterFrame(agent, sequence, disposition);
        case TerminalDiff(agent, base, sequence, diff) =>
          var disposition := TakeDiff(agent, base, sequence, diff);
          AfterFrame(agent, sequence, disposition);
        case TerminalViewport(agent, requested, scrollback, snapshot) =>
          var shown := TakeViewport(agent, requested, scrollback, snapshot);
        case AgentGone(agent) =>
          terminals := terminals - {agent};
          pendingResync := pendingResync - {agent};
        case Other(_) =>
      }
    }

    method TakeFull(agent: AgentId, sequence: u64, snapshot: TerminalSnapshot) returns (disposition: FrameDisposition)
      requires Sound(State())
      modifies this`terminals, this`pendingResync
      ensures Sound(State())
      ensures (State(), disposition) == ApplyFull(old(State()), agent, sequence, snapshot)
    {
      if Validate(snapshot).Err? {
        return Gap;
      }
      if agent !in terminals {
        var (tracker, accepted) := UNTRACKED.AcceptFull(sequence);
        disposition := accepted;
        terminals := terminals[agent := CachedTerminal(snapshot, tracker, None, None, None)];
      } else {
        var terminal := terminals[agent];
        var (tracker, accepted) := terminal.tracker.AcceptFull(sequence);
        disposition := accepted;
        if disposition == Applied {
          terminals := terminals[agent := Live(terminal.(snapshot := snapshot, tracker := tracker))];
        }
      }
      if disposition == Applied {
        pendingResync := pendingResync - {agent};
      }
    }

    method TakeDiff(agent: AgentId, base: u64, sequence: u64, diff: SnapshotDiff)
      returns (disposition: FrameDisposition)
      requires Sound(State())
      modifies this`terminals
      ensures Sound(State())
      ensures (State(), disposition) == ApplyDiff(old(State()), agent, base, sequence, diff)
    {
      if agent !in terminals {
        return Gap;
      }
      var terminal := terminals[agent];
      var (tracker, accepted) := terminal.tracker.AcceptDiff(base, sequence);
      disposition := accepted;
      if disposition == Applied {
        var screen := new LiveScreen(terminal.snapshot);
        var applied := screen.ApplyDiff(diff);
        terminal := terminal.(snapshot := screen.Value(), tracker := tracker);
        if applied.Err? {
          terminal := terminal.(tracker := tracker.Reset());
          disposition := Gap;
        }
        ApplyKeepsValid(terminals[agent].snapshot, diff);
      }
      terminals := terminals[agent := terminal];
    }

    /** Acknowledges a frame that was applied or already known; after a gap asks for a full frame, once. */
    method AfterFrame(agent: AgentId, sequence: u64, disposition: FrameDisposition)
      modifies this`pendingResync, this`sent
      ensures State() == FollowUp(old(State()), agent, sequence, disposition).0
      ensures sent == old(sent) + FollowUp(old(State()), agent, sequence, disposition).1
    {
      match disposition {
        case Applied =>
          sent := sent + [Acknowledge(agent, sequence)];
        case Duplicate =>
          sent := sent + [Acknowledge(agent, sequence)];
        case Gap =>
          if agent !in pendingResync {
            pendingResync := pendingResync + {agent};
            var last := None;
            if agent in terminals {
              last := terminals[agent].tracker.sequence;
            }
            sent := sent + [Resync(agent, last)];
          }
      }
    }

    method TakeViewport(agent: AgentId, requested: nat, scrollback: nat, snapshot: TerminalSnapshot)
      returns (shown: bool)
      modifies this`terminals, this`sent
      ensures agent !in old(terminals) ==> !shown && terminals == old(terminals) && sent == old(sent)
      ensures agent in old(terminals) ==>
                var (terminal, answered, again) := Answer(old(terminals)[agent], requested, scrollback, snapshot);
                && shown == answered && terminals == old(terminals)[agent := terminal]
                && sent == old(sent) + if again.Some? then [Viewport(agent, again.value)] else []
    {
      if agent !in terminals {
        return false;
      }
      var terminal := terminals[agent];
      if terminal.request != Some(requested) {
        return false;
      }
      terminal := terminal.(request := None);
      if terminal.target != Some(requested) {
        if terminal.target.Some? {
          terminal := terminal.(request := terminal.target);
          sent := sent + [Viewport(agent, terminal.target.value)];
        }
        terminals := terminals[agent := terminal];
        return false;
      }
      if scrollback == 0 {
        terminals := terminals[agent := terminal.(scrollback := None, target := None)];
        return true;
      }
      if Validate(snapshot).Err? {
        terminals := terminals[agent := terminal];
        return false;
      }
      terminal := terminal.(scrollback := Some(ScrollbackView(snapshot, scrollback)), target := Some(scrollback));
      terminals := terminals[agent := terminal];
      shown := true;
    }

    method Scroll(agent: AgentId, rows: int)
      modifies this`terminals, this`sent
      ensures agent !in old(terminals) ==> terminals == old(terminals) && sent == old(sent)
      ensures agent in old(terminals) ==>
                var (terminal, request) := ScrollTerminal(old(terminals)[agent], rows);
                && terminals == old(terminals)[agent := terminal]
                && sent == old(sent) + if request.Some? then [Viewport(agent, request.value)] else []
    {
      if agent !in terminals {
        return;
      }
      var terminal := terminals[agent];
      var current := Position(terminal);
      var requested := Moved(current, rows);
      if requested == 0 {
        var scrolled := ShowLive(agent);
        return;
      }
      terminal := terminal.(target := Some(requested));
      var send := terminal.request.None?;
      if send {
        terminal := terminal.(request := Some(requested));
      }
      terminals := terminals[agent := terminal];
      if send {
        sent := sent + [Viewport(agent, requested)];
      }
    }

    method ShowLive(agent: AgentId) returns (scrolled: bool)
      modifies this`terminals
      ensures agent !in old(terminals) ==> !scrolled && terminals == old(terminals)
      ensures agent in old(terminals) ==>
                && scrolled == old(terminals)[agent].scrollback.Some?
                && terminals == old(terminals)[agent := old(terminals)[agent].(target := None, scrollback := None)]
    {
      if agent !in terminals {
        return false;
      }
      var terminal := terminals[agent];
      scrolled := terminal.scrollback.Some?;
      terminals := terminals[agent := terminal.(target := None, scrollback := None)];
    }

    /** A resize drops every scrollback view; the resize request itself goes out separately. */
    method Resize()
      modifies this`terminals
      ensures terminals == map agent | agent in old(terminals) :: Live(old(terminals)[agent])
    {
      terminals := map agent | agent in terminals :: Live(terminals[agent]);
    }
  }

  // ---------------------------------------------------------------------------------------------
  // Asking for a full frame
  // ---------------------------------------------------------------------------------------------

  /** The number of the screen held of an agent, if it has one. */
  function Held(c: ClientState, agent: AgentId): Option<u64> {
    if agent in c.terminals then c.terminals[agent].tracker.sequence else None
  }

  /** A diff of the right base and a new number that does not fit the screen held. */
  predicate Spoils(c: ClientState, m: Message)
    requires Sound(c) && m.TerminalDiff?
  {
    && Held(c, m.agent).Some? && m.base == Held(c, m.agent).value < m.sequence
    && Apply(c.terminals[m.agent].snapshot, m.diff).Err?
  }

  /** A frame the client can make nothing of: a screen that is not valid, or a new diff from one it does not hold. */
  predicate Unusable(c: ClientState, m: Message)
    requires Sound(c) && IsNumbered(m)
  {
    match m
    case TerminalFull(_, _, snapshot) => !Valid(snapshot)
    case TerminalDiff(agent, base, sequence, _) =>
      Held(c, agent).None? || (sequence > Held(c, agent).value && (base != Held(c, agent).value || Spoils(c, m)))
  }

  /**
   A frame the client can make nothing of makes it ask for a full frame, once, and say which number it holds;
   that is the one it held before, unless the diff spoilt the screen. Any other frame it acknowledges.
   */
  lemma GapAsksOnce(c: ClientState, m: Message)
    requires Sound(c) && IsNumbered(m)
    ensures var (next, sent) := Receive(c, m);
            if !Unusable(c, m) then sent == [Acknowledge(m.agent, m.sequence)]
            else
              && Held(next, m.agent) == (if m.TerminalDiff? && Spoils(c, m) then None else Held(c, m.agent))
              && next.pendingResync == c.pendingResync + {m.agent}
              && sent == if m.agent in c.pendingResync then [] else [Resync(m.agent, Held(next, m.agent))]
    ensures Sound(Receive(c, m).0)
  {
    if m.TerminalDiff? && m.agent in c.terminals {
      ApplyKeepsValid(c.terminals[m.agent].snapshot, m.diff);
    }
  }

  /** What lets go of a request for a full frame: a newer valid full frame, or the agent's departure. */
  predicate Settles(c: ClientState, m: Message, agent: AgentId) {
    match m
    case TerminalFull(a, sequence, snapshot) =>
      a == agent && Valid(snapshot) && (Held(c, agent).Some? ==> sequence > Held(c, agent).value)
    case AgentGone(a) => a == agent
    case _ => false
  }

  ghost predicate Listens(states: seq<ClientState>, messages: seq<Message>) {
    && |states| == |messages| + 1 && (forall i | 0 <= i < |states| :: Sound(states[i]))
    && forall i | 0 <= i < |messages| :: states[i + 1] == Receive(states[i], messages[i]).0
  }

  /** Whether the client answers a message by asking for a full frame of the agent. */
  ghost predicate Asks(c: ClientState, m: Message, agent: AgentId) {
    Sound(c) && exists last :: Resync(agent, last) in Receive(c, m).1
  }

  lemma AskingStep(c: ClientState, m: Message, agent: AgentId)
    requires Sound(c)
    ensures Asks(c, m, agent) <==>
            IsNumbered(m) && m.agent == agent && Unusable(c, m) && agent !in c.pendingResync
    ensures agent in Receive(c, m).0.pendingResync <==>
            Asks(c, m, agent) || (agent in c.pendingResync && !Settles(c, m, agent))
  {
    if IsNumbered(m) {
      GapAsksOnce(c, m);
      if m.agent == agent && Unusable(c, m) && agent !in c.pendingResync {
        assert Resync(agent, Held(Receive(c, m).0, agent)) in Receive(c, m).1;
      }
    }
  }

  /**
   Whatever arrives, a request stays pending until something settles it, and until then no other is sent;
   not even if the answer to the first is lost.
   */
  lemma {:induction false} AsksOnce(states: seq<ClientState>, messages: seq<Message>, i: nat, j: nat, agent: AgentId)
    requires Listens(states, messages) && i < j <= |messages| && agent in states[i].pendingResync
    requires forall k | i <= k < j :: !Settles(states[k], messages[k], agent)
    ensures agent in states[j].pendingResync
    ensures forall k | i <= k < j :: !Asks(states[k], messages[k], agent)
    decreases j
  {
    if i < j - 1 {
      AsksOnce(states, messages, i, j - 1, agent);
    }
    AskingStep(states[j - 1], messages[j - 1], agent);
  }

  // ---------------------------------------------------------------------------------------------
  // Scrolling there and back
  // ---------------------------------------------------------------------------------------------

  /** Scrolling moves by exactly so many rows, as far as there is anywhere to go. */
  lemma ScrollMoves(t: CachedTerminal, rows: int)
    requires Position(t) <= MAX_USIZE
    ensures var was, now := Position(t), Position(ScrollTerminal(t, rows).0);
            && (0 <= was + rows <= MAX_USIZE ==> now == was + rows)
            && (was + rows < 0 ==> now == 0) && (was + rows > MAX_USIZE ==> now == MAX_USIZE)
            && (rows <= 0 ==> now <= was)
  {
  }

  /** So scrolling back and then forward by the same number of rows returns to where one was. */
  lemma ScrollReturns(t: CachedTerminal, rows: int)
    requires Position(t) <= MAX_USIZE && 0 <= Position(t) + rows <= MAX_USIZE
    ensures Position(ScrollTerminal(ScrollTerminal(t, rows).0, -rows).0) == Position(t)
  {
    ScrollMoves(t, rows);
    ScrollMoves(ScrollTerminal(t, rows).0, -rows);
  }
}
