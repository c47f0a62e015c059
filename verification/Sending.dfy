/**
 How the server sends one message to a connection: it is pushed, and when the queue has evicted an
 agent's frames to make room, a fresh full frame of that agent is made and pushed behind it.
 */
module Sending {
  import opened Basics
  import opened TerminalModel
  import opened Frames
  import F = FrameBook
  import Q = OutgoingQueue

  /** The queue and the book afterwards, and whether the connection survives. */
  function Sent(q: Q.QueueState, b: F.BookState, m: Message, terminal: TerminalSnapshot)
      : (Q.QueueState, F.BookState, bool)
  {
    var (pushed, r) := Q.Push(q, m);
    match r
    case Queued => (pushed, b, true)
    case Full => (pushed, b, false)
    case NeedsFull(agent) =>
      var (book, frame) := F.NextFrame(b, agent, true, terminal);
      if frame.None? then (pushed, book, false)
      else
        var (again, r') := Q.Push(pushed, frame.value);
        (again, book, r' == Q.Queued)
  }

  /** `terminal` is the screen, at that moment, of whichever agent's frames are evicted. */
  method SendEnvelope(queue: Q.Queue, book: F.Book, m: Message, terminal: TerminalSnapshot) returns (alive: bool)
    requires |queue.frames| <= Q.CONNECTION_QUEUE
    modifies queue, book
    ensures |queue.frames| <= Q.CONNECTION_QUEUE
    ensures (queue.State(), book.State(), alive) == Sent(old(queue.State()), old(book.State()), m, terminal)
  {
    var r := queue.PushFrame(m);
    match r {
      case Queued => alive := true;
      case Full => alive := false;
      case NeedsFull(agent) =>
        var frame := book.TerminalEvent(agent, true, terminal);
        if frame.None? {
          return false;
        }
        var again := queue.PushFrame(frame.value);
        alive := again == Q.Queued;
    }
  }

  /** The frames of one agent in a queue. */
  predicate HasFramesOf(q: Q.QueueState, agent: AgentId) {
    exists m | m in q.frames :: Q.IsOf(m, agent)
  }

  /**
   No message leaves a surviving connection with an agent's frames gone and nothing in their place: whoever
   lost a frame has one at the end of the queue, the message itself or a newer one behind it. It is a full
   frame, unless the message is a viewport, which takes the place of its own agent's frames.
   */
  lemma SurvivorsAreResent(q: Q.QueueState, b: F.BookState, m: Message, terminal: TerminalSnapshot, lost: Message)
    requires !q.closed
    requires lost in q.frames && lost !in Sent(q, b, m, terminal).0.frames && Sent(q, b, m, terminal).2
    ensures Q.IsTerminal(lost)
    ensures var agent, frames := Q.TerminalFrame(lost).value.0, Sent(q, b, m, terminal).0.frames;
            |frames| > 0 && var last := frames[|frames| - 1];
            Q.IsOf(last, agent) && if m.TerminalViewport? then last == m else last.TerminalFull?
  {
    var (pushed, r) := Q.Push(q, m);
    if lost !in pushed.frames {
      Q.EvictedAgentsAreResent(q, m, lost);
    }
    if r.NeedsFull? {
      var frame := F.NextFrame(b, r.agent, true, terminal).1.value;
      if lost in pushed.frames {
        Q.EvictedAgentsAreResent(pushed, frame, lost);
      }
    }
  }

  /** So an agent that has frames in the queue still has some after any message that the connection survives. */
  lemma SurvivorsKeepFrames(q: Q.QueueState, b: F.BookState, m: Message, terminal: TerminalSnapshot, agent: AgentId)
    requires !q.closed && HasFramesOf(q, agent)
    ensures Sent(q, b, m, terminal).2 ==> HasFramesOf(Sent(q, b, m, terminal).0, agent)
  {
    var (after, _, alive) := Sent(q, b, m, terminal);
    var lost :| lost in q.frames && Q.IsOf(lost, agent);
    if alive && lost !in after.frames {
      SurvivorsAreResent(q, b, m, terminal, lost);
      assert after.frames[|after.frames| - 1] in after.frames;
    }
  }
}
