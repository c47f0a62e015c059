/**
 The bounded queue between the server and a connection's writer. When it is full, a push makes room
 by evicting every terminal frame of one agent; the caller is told whose screen it must send anew.
 */
module OutgoingQueue {
  import opened Basics
  import opened Frames

  const CONNECTION_QUEUE: nat := 64

  datatype QueueResult = Queued | NeedsFull(agent: AgentId) | Full

  /** The agent of a terminal frame, and whether the queue treats the frame as complete in itself. */
  function TerminalFrame(m: Message): Option<(AgentId, bool)> {
    match m
    case TerminalFull(agent, _, _) => Some((agent, true))
    case TerminalDiff(agent, _, _, _) => Some((agent, false))
    case TerminalViewport(agent, _, _, _) => Some((agent, true))
    case _ => None
  }

  predicate IsTerminal(m: Message) {
    TerminalFrame(m).Some?
  }

  predicate IsOf(m: Message, agent: AgentId) {
    TerminalFrame(m).Some? && TerminalFrame(m).value.0 == agent
  }

  function FirstTerminal(frames: seq<Message>): Option<(AgentId, bool)> {
    if |frames| == 0 then None
    else if IsTerminal(frames[0]) then TerminalFrame(frames[0])
    else FirstTerminal(frames[1..])
  }

  /** The frames that remain when those of one agent are evicted. */
  function Without(frames: seq<Message>, agent: AgentId): (r: seq<Message>)
    ensures |r| <= |frames|
    ensures forall m | m in r :: m in frames && !IsOf(m, agent)
  {
    if |frames| == 0 then []
    else if IsOf(frames[0], agent) then Without(frames[1..], agent)
    else [frames[0]] + Without(frames[1..], agent)
  }

  datatype QueueState = QueueState(frames: seq<Message>, closed: bool)

  /** What a push does, case by case. */
  function Push(q: QueueState, m: Message): (QueueState, QueueResult) {
    if q.closed then (q, Full)
    else if |q.frames| != CONNECTION_QUEUE then (q.(frames := q.frames + [m]), Queued)
    else
      var incoming := TerminalFrame(m);
      var victim := if incoming.Some? then incoming else FirstTerminal(q.frames);
      if victim.None? then (q, Full)
      else
        var kept := Without(q.frames, victim.value.0);
        if |kept| == CONNECTION_QUEUE then (q.(frames := kept), Full)
        else if incoming.None? then (q.(frames := kept + [m]), NeedsFull(victim.value.0))
        else if !victim.value.1 then (q.(frames := kept), NeedsFull(victim.value.0))
        else (q.(frames := kept + [m]), Queued)
  }

  class Queue {
    var frames: seq<Message>
    var closed: bool

    function State(): QueueState
      reads this
    {
      QueueState(frames, closed)
    }

    constructor ()
      ensures State() == QueueState([], false)
    {
      frames := [];
      closed := false;
    }

    method PushFrame(m: Message) returns (r: QueueResult)
      requires |frames| <= CONNECTION_QUEUE
      modifies this
      ensures |frames| <= CONNECTION_QUEUE
      ensures (State(), r) == Push(old(State()), m)
    {
      if closed {
        return Full;
      }
      if |frames| == CONNECTION_QUEUE {
        var incoming := TerminalFrame(m);
        var victim := incoming;
        if incoming.None? {
          victim := FindTerminal();
        }
        if victim.None? {
          return Full;
        }
        var (agent, full) := victim.value;
        Retain(agent);
        if |frames| == CONNECTION_QUEUE {
          return Full;
        }
        if incoming.None? {
          frames := frames + [m];
          return NeedsFull(agent);
        }
        if !full {
          return NeedsFull(agent);
        }
      }
      frames := frames + [m];
      r := Queued;
    }

    method FindTerminal() returns (r: Option<(AgentId, bool)>)
      ensures r == FirstTerminal(frames)
    {
      assert frames[0..] == frames;
      for i := 0 to |frames|
        invariant FirstTerminal(frames) == FirstTerminal(frames[i..])
      {
        assert frames[i..][0] == frames[i] && frames[i..][1..] == frames[i + 1..];
        if IsTerminal(frames[i]) {
          return TerminalFrame(frames[i]);
        }
      }
      r := None;
    }

    /** Drops the agent's frames and keeps the others in order. */
    method Retain(agent: AgentId)
      modifies this`frames
      ensures frames == Without(old(frames), agent)
    {
      var was := frames;
      var kept: seq<Message> := [];
      assert was[0..] == was;
      for i := 0 to |was|
        invariant kept + Without(was[i..], agent) == Without(was, agent)
      {
        assert was[i..][0] == was[i] && was[i..][1..] == was[i + 1..];
        if !IsOf(was[i], agent) {
          kept := kept + [was[i]];
        }
      }
      assert kept + [] == kept;
      frames := kept;
    }

    /** The writer's side; it sleeps until there is a frame or the queue is closed. */
    method Pop() returns (r: Option<Message>)
      requires |frames| > 0 || closed
      modifies this`frames
      ensures old(|frames|) > 0 ==> r == Some(old(frames)[0]) && frames == old(frames)[1..]
      ensures old(|frames|) == 0 ==> r == None && frames == []
    {
      if |frames| > 0 {
        r := Some(frames[0]);
        frames := frames[1..];
      } else {
        r := None;
      }
    }

    method Close()
      modifies this`closed
      ensures State() == old(State()).(closed := true)
    {
      closed := true;
    }
  }

  // ---------------------------------------------------------------------------------------------
  // One push
  // ---------------------------------------------------------------------------------------------

  /** The frames that are not about a screen; these are never dropped. */
  function NonTerminal(frames: seq<Message>): seq<Message> {
    if |frames| == 0 then []
    else if IsTerminal(frames[0]) then NonTerminal(frames[1..])
    else [frames[0]] + NonTerminal(frames[1..])
  }

  lemma {:induction false} NonTerminalConcat(a: seq<Message>, b: seq<Message>)
    ensures NonTerminal(a + b) == NonTerminal(a) + NonTerminal(b)
  {
    if |a| == 0 {
      assert a + b == b;
    } else {
      assert (a + b)[1..] == a[1..] + b;
      NonTerminalConcat(a[1..], b);
    }
  }

  lemma {:induction false} EvictionSparesNonTerminal(frames: seq<Message>, agent: AgentId)
    ensures NonTerminal(Without(frames, agent)) == NonTerminal(frames)
  {
    if |frames| > 0 {
      EvictionSparesNonTerminal(frames[1..], agent);
      if !IsOf(frames[0], agent) {
        assert ([frames[0]] + Without(frames[1..], agent))[1..] == Without(frames[1..], agent);
      }
    }
  }

  lemma {:induction false} NothingToEvict(frames: seq<Message>, agent: AgentId)
    ensures |Without(frames, agent)| == |frames| <==> !exists m | m in frames :: IsOf(m, agent)
    ensures |Without(frames, agent)| == |frames| ==> Without(frames, agent) == frames
  {
    if |frames| > 0 {
      NothingToEvict(frames[1..], agent);
      assert frames == [frames[0]] + frames[1..];
      assert forall m :: m in frames <==> m == frames[0] || m in frames[1..];
    }
  }

  lemma {:induction false} FirstTerminalIsQueued(frames: seq<Message>)
    ensures FirstTerminal(frames).None? <==> !exists m | m in frames :: IsTerminal(m)
    ensures FirstTerminal(frames).Some? ==> exists m | m in frames :: IsOf(m, FirstTerminal(frames).value.0)
  {
    if |frames| > 0 {
      FirstTerminalIsQueued(frames[1..]);
      assert frames == [frames[0]] + frames[1..];
      assert forall m :: m in frames <==> m == frames[0] || m in frames[1..];
      if IsTerminal(frames[0]) {
        assert IsOf(frames[0], FirstTerminal(frames).value.0);
      } else if FirstTerminal(frames).Some? {
        var m :| m in frames[1..] && IsOf(m, FirstTerminal(frames).value.0);
        assert m in frames;
      }
    }
  }

  /** What was pushed and kept: nothing on refusal, and nothing for a diff that is to be replaced by a full frame. */
  function Kept(m: Message, r: QueueResult): seq<Message> {
    match r
    case Queued => [m]
    case NeedsFull(_) => if IsTerminal(m) then [] else [m]
    case Full => []
  }

  /** A refused push leaves the queue as it was. */
  lemma RefusalChangesNothing(q: QueueState, m: Message)
    ensures Push(q, m).1 == Full ==> Push(q, m).0 == q
  {
    if TerminalFrame(m).Some? {
      NothingToEvict(q.frames, TerminalFrame(m).value.0);
    }
    if FirstTerminal(q.frames).Some? {
      NothingToEvict(q.frames, FirstTerminal(q.frames).value.0);
    }
  }

  /** The queue after a push is the old one, less all terminal frames of at most one agent, plus what was kept. */
  lemma PushEvictsOneAgent(q: QueueState, m: Message)
    ensures var (q', r) := Push(q, m);
            || q'.frames == q.frames + Kept(m, r)
            || exists agent :: q'.frames == Without(q.frames, agent) + Kept(m, r)
  {
    var (q', r) := Push(q, m);
    RefusalChangesNothing(q, m);
    if r == Full || (!q.closed && |q.frames| != CONNECTION_QUEUE) {
      assert q'.frames == q.frames + Kept(m, r);
    } else {
      var incoming := TerminalFrame(m);
      var victim := if incoming.Some? then incoming else FirstTerminal(q.frames);
      assert q'.frames == Without(q.frames, victim.value.0) + Kept(m, r);
    }
  }

  /**
   Whoever loses frames to a push other than a viewport gets a full frame: this very one, or one the caller
   is asked for.
   */
  lemma EvictedAgentsAreResent(q: QueueState, m: Message, lost: Message)
    requires lost in q.frames && lost !in Push(q, m).0.frames
    ensures IsTerminal(lost)
    ensures var agent := TerminalFrame(lost).value.0;
            || Push(q, m).1 == NeedsFull(agent)
            || (Push(q, m).1 == Queued && m.TerminalFull? && m.agent == agent)
            || (Push(q, m).1 == Queued && m.TerminalViewport? && m.agent == agent)
  {
    RefusalChangesNothing(q, m);
    var incoming := TerminalFrame(m);
    var victim := if incoming.Some? then incoming else FirstTerminal(q.frames);
    EvictionTakesOnly(q.frames, victim.value.0, lost);
  }

  lemma {:induction false} FirstTerminalIsOldest(frames: seq<Message>, i: nat)
    requires i < |frames| && IsTerminal(frames[i]) && forall j | 0 <= j < i :: !IsTerminal(frames[j])
    ensures FirstTerminal(frames) == TerminalFrame(frames[i])
  {
    if i > 0 {
      FirstTerminalIsOldest(frames[1..], i - 1);
    }
  }

  /**
   Other traffic, pushed into a full queue, evicts the agent of the oldest terminal frame: all of that agent's
   frames and nobody else's, and the caller is told whose.
   */
  lemma OldestMakesRoom(q: QueueState, m: Message, i: nat)
    requires !q.closed && |q.frames| == CONNECTION_QUEUE && !IsTerminal(m)
    requires i < |q.frames| && IsTerminal(q.frames[i]) && forall j | 0 <= j < i :: !IsTerminal(q.frames[j])
    ensures var (next, r) := Push(q, m);
            var agent := TerminalFrame(q.frames[i]).value.0;
            && r == NeedsFull(agent) && |next.frames| > 0 && next.frames[|next.frames| - 1] == m
            && forall x | x in q.frames :: x in next.frames <==> !IsOf(x, agent) || x == m
  {
    var agent := TerminalFrame(q.frames[i]).value.0;
    var kept := Without(q.frames, agent);
    FirstTerminalIsOldest(q.frames, i);
    EvictionShrinks(q.frames, agent, i);
    forall x | x in q.frames
      ensures x in kept <==> !IsOf(x, agent)
    {
      EvictionTakesOnly(q.frames, agent, x);
    }
  }

  lemma {:induction false} EvictionShrinks(frames: seq<Message>, agent: AgentId, i: nat)
    requires i < |frames| && IsOf(frames[i], agent)
    ensures |Without(frames, agent)| < |frames|
  {
    if i > 0 {
      EvictionShrinks(frames[1..], agent, i - 1);
    }
  }

  lemma {:induction false} EvictionTakesOnly(frames: seq<Message>, agent: AgentId, m: Message)
    requires m in frames
    ensures m in Without(frames, agent) <==> !IsOf(m, agent)
  {
    if frames[0] != m {
      EvictionTakesOnly(frames[1..], agent, m);
    } else if m in frames[1..] {
      EvictionTakesOnly(frames[1..], agent, m);
    }
  }

  /** A full queue refuses a message exactly when it holds no frame that message may evict. */
  lemma RefusedExactlyWhenNothingToEvict(q: QueueState, m: Message)
    requires !q.closed && |q.frames| == CONNECTION_QUEUE
    ensures Push(q, m).1 == Full <==>
            if IsTerminal(m) then !exists queued | queued in q.frames :: IsOf(queued, TerminalFrame(m).value.0)
            else !exists queued | queued in q.frames :: IsTerminal(queued)
  {
    FirstTerminalIsQueued(q.frames);
    if IsTerminal(m) {
      NothingToEvict(q.frames, TerminalFrame(m).value.0);
    } else if FirstTerminal(q.frames).Some? {
      NothingToEvict(q.frames, FirstTerminal(q.frames).value.0);
    }
  }

  // ---------------------------------------------------------------------------------------------
  // Whole runs
  // ---------------------------------------------------------------------------------------------

  datatype Operation = PushOp(m: Message) | PopOp | CloseOp

  /** The queue together with what has been popped from it and which non-terminal messages it took in, in order. */
  datatype Trace = Trace(queue: QueueState, popped: seq<Message>, taken: seq<Message>)

  const START := Trace(QueueState([], false), [], [])

  function Step(t: Trace, op: Operation): Trace {
    match op
    case PushOp(m) =>
      var (q, r) := Push(t.queue, m);
      Trace(q, t.popped, t.taken + if r != Full && !IsTerminal(m) then [m] else [])
    case PopOp =>
      if |t.queue.frames| == 0 then t
      else Trace(t.queue.(frames := t.queue.frames[1..]), t.popped + [t.queue.frames[0]], t.taken)
    case CloseOp => t.(queue := t.queue.(closed := true))
  }

  function Run(t: Trace, ops: seq<Operation>): Trace
    decreases |ops|
  {
    if |ops| == 0 then t else Run(Step(t, ops[0]), ops[1..])
  }

  ghost predicate Disciplined(t: Trace) {
    |t.queue.frames| <= CONNECTION_QUEUE && NonTerminal(t.popped + t.queue.frames) == t.taken
  }

  lemma {:induction false} StepKeepsDiscipline(t: Trace, op: Operation)
    requires Disciplined(t)
    ensures Disciplined(Step(t, op))
  {
    match op {
      case PushOp(m) =>
        var (q, r) := Push(t.queue, m);
        PushKeepsNonTerminal(t.queue, m);
        NonTerminalConcat(t.popped, t.queue.frames);
        NonTerminalConcat(t.popped, q.frames);
      case PopOp =>
        if |t.queue.frames| > 0 {
          var head, tail := t.queue.frames[0], t.queue.frames[1..];
          assert t.popped + t.queue.frames == (t.popped + [head]) + tail;
        }
      case CloseOp =>
    }
  }

  lemma PushKeepsNonTerminal(q: QueueState, m: Message)
    ensures NonTerminal(Push(q, m).0.frames) ==
            NonTerminal(q.frames) + if Push(q, m).1 != Full && !IsTerminal(m) then [m] else []
    ensures |q.frames| <= CONNECTION_QUEUE ==> |Push(q, m).0.frames| <= CONNECTION_QUEUE
  {
    var (q', r) := Push(q, m);
    RefusalChangesNothing(q, m);
    PushEvictsOneAgent(q, m);
    assert NonTerminal([m]) == if IsTerminal(m) then [] else [m];
    NonTerminalConcat(q.frames, Kept(m, r));
    if q'.frames != q.frames + Kept(m, r) {
      var agent :| q'.frames == Without(q.frames, agent) + Kept(m, r);
      EvictionSparesNonTerminal(q.frames, agent);
      NonTerminalConcat(Without(q.frames, agent), Kept(m, r));
    }
  }

  /**
   Main result: over any pushes, pops and closings the queue holds at most 64 frames, and the
   non-terminal messages that come out, followed by those still queued, are the ones that went in.
   */
  lemma {:induction false} QueueDiscipline(t: Trace, ops: seq<Operation>)
    requires Disciplined(t)
    ensures Disciplined(Run(t, ops))
    decreases |ops|
  {
    if |ops| > 0 {
      StepKeepsDiscipline(t, ops[0]);
      QueueDiscipline(Step(t, ops[0]), ops[1..]);
    }
  }

  lemma QueueDisciplineFromStart(ops: seq<Operation>)
    ensures |Run(START, ops).queue.frames| <= 64
    ensures NonTerminal(Run(START, ops).popped) + NonTerminal(Run(START, ops).queue.frames) == Run(START, ops).taken
  {
    QueueDiscipline(START, ops);
    NonTerminalConcat(Run(START, ops).popped, Run(START, ops).queue.frames);
  }
}
