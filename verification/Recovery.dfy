/**
 How a client comes back after losing frames. Anything may be lost here: pushes that evict an agent's
 newest frame, and messages thrown away as they come off the wire. The requests a client sends for full
 frames travel back to the server, which answers each with a full frame.

 Whatever has been lost before, a full frame of an agent leads home: once the client has taken in all
 that is on its way, it holds the server's newest number and screen of the agent and asks for nothing.
 It stays that way exactly until a step loses that agent a frame it needs.
 */
module Recovery {
  import opened Basics
  import opened TerminalModel
  import opened Frames
  import opened FrameNumbers
  import opened Chasing
  import opened RemoteAgents
  import C = Convergence
  import F = FrameBook
  import S = ReplicationSafety
  import Q = OutgoingQueue

  // ---------------------------------------------------------------------------------------------
  // One agent in the pipeline
  // ---------------------------------------------------------------------------------------------

  function ChaserOf(c: ClientState, agent: AgentId): Chaser {
    Chaser(Held(c, agent), agent in c.pendingResync)
  }

  ghost predicate StreamPlain(s: S.System, notes: seq<Note>, agent: AgentId) {
    if agent in s.book.sequences then Plain(Held(s.client, agent), notes, s.book.sequences[agent])
    else agent in s.used || (notes == [] && Held(s.client, agent) == None)
  }

  predicate StreamHome(s: S.System, notes: seq<Note>, agent: AgentId) {
    agent in s.book.bases ==> LeadsHome(ChaserOf(s.client, agent), notes, s.book.bases[agent].sequence)
  }

  ghost predicate AgentPlain(net: C.Net, agent: AgentId) {
    StreamPlain(net.sys, Notes(C.Pipeline(net), agent), agent)
  }

  /** What holds of the pipeline whatever has been lost. */
  ghost predicate Sane(net: C.Net) {
    && S.Inv(net.sys)
    && |net.queue| <= Q.CONNECTION_QUEUE
    && (!net.attached ==> C.Pipeline(net) == [])
    && C.AllSent(net)
    && C.Tidy(net)
    && forall agent :: AgentPlain(net, agent)
  }

  /** If the server has a basis of the agent, all that is on its way leads the client to it. */
  predicate Home(net: C.Net, agent: AgentId) {
    StreamHome(net.sys, Notes(C.Pipeline(net), agent), agent)
  }

  lemma SaneIsNumbered(net: C.Net, agent: AgentId)
    requires Sane(net) && agent in net.sys.book.sequences
    ensures AllNumbered(Notes(C.Pipeline(net), agent))
  {
    assert AgentPlain(net, agent);
  }

  lemma {:induction false} DrainChases(s: S.System, messages: seq<Message>, agent: AgentId)
    requires S.Inv(s)
    requires forall m | m in messages && IsNumbered(m) :: m in s.sent
    ensures ChaserOf(C.Drained(s, messages).client, agent) == Chase(ChaserOf(s.client, agent), Notes(messages, agent))
    decreases |messages|
  {
    if |messages| > 0 {
      var next := S.Next(s, S.Deliver(messages[0]));
      S.StepKeepsInv(s, S.Deliver(messages[0]));
      ReceiveChases(s, messages[0], agent);
      DrainChases(next, messages[1..], agent);
      ChaseConcat(ChaserOf(s.client, agent), NotesOf(messages[0], agent), Notes(messages[1..], agent));
    }
  }

  /** What the client holds and asks for follows the notes of what it receives. */
  lemma ReceiveChases(s: S.System, m: Message, agent: AgentId)
    requires S.Inv(s) && (IsNumbered(m) ==> m in s.sent)
    ensures ChaserOf(S.Next(s, S.Deliver(m)).client, agent) == Chase(ChaserOf(s.client, agent), NotesOf(m, agent))
  {
    var c := ChaserOf(s.client, agent);
    C.ReceiveFollowsNotes(s, m, agent);
    ChaseFollows(c, NotesOf(m, agent));
    if |NotesOf(m, agent)| == 1 {
      ChaseSingle(c, NotesOf(m, agent)[0]);
    }
    AskingStep(s.client, m, agent);
    if IsNumbered(m) && m.agent == agent {
      HonestIsUsable(s, m);
    }
  }

  /** A frame the server made is of no use only if it is a new diff from a number not held. */
  lemma HonestIsUsable(s: S.System, m: Message)
    requires S.Inv(s) && IsNumbered(m) && m in s.sent
    ensures m.TerminalFull? ==> Valid(m.snapshot)
    ensures Unusable(s.client, m) <==>
            m.TerminalDiff? && !FitsOne(Held(s.client, m.agent), DiffNote(m.base, m.sequence))
  {
    assert S.HonestFrame(s.history, m);
    if m.TerminalDiff? && m.agent in s.client.terminals {
      var t := s.client.terminals[m.agent];
      assert S.HonestScreen(s.history, m.agent, t);
      if t.tracker.AcceptDiff(m.base, m.sequence).1 == Applied {
        S.AcceptedDiffApplies(s.history, m.agent, t, m);
      }
    }
  }

  /** The client has the server's newest number and screen of the agent, and asks for nothing. */
  predicate UpToDate(c: ClientState, agent: AgentId, basis: F.FrameBasis) {
    && agent in c.terminals && agent !in c.pendingResync
    && c.terminals[agent].tracker.sequence == Some(basis.sequence)
    && c.terminals[agent].snapshot == basis.snapshot
  }

  /** Being on the way home means to hold exactly that once everything on its way has been taken in. */
  lemma HomeMeans(net: C.Net, agent: AgentId)
    requires Sane(net) && agent in net.sys.book.bases
    ensures Home(net, agent) <==>
            UpToDate(C.Drained(net.sys, C.Pipeline(net)).client, agent, net.sys.book.bases[agent])
  {
    C.HeadedFor(net, agent);
    DrainChases(net.sys, C.Pipeline(net), agent);
    ChaseFollows(ChaserOf(net.sys.client, agent), Notes(C.Pipeline(net), agent));
  }

  // ---------------------------------------------------------------------------------------------
  // Frames made, delivered and thrown away
  // ---------------------------------------------------------------------------------------------

  /** A new frame continues the stream of its agent; a full one leads home whatever has been lost before. */
  lemma DrawnStream(
    s: S.System, drawn: AgentId, forceFull: bool, terminal: TerminalSnapshot, notes: seq<Note>, agent: AgentId)
    requires S.Inv(s) && Valid(terminal) && StreamPlain(s, notes, agent)
    ensures var frame := F.NextFrame(s.book, drawn, forceFull, terminal).1;
            var s' := S.Next(s, S.Emit(drawn, forceFull, terminal));
            var more := notes + if frame.Some? then NotesOf(frame.value, agent) else [];
            && StreamPlain(s', more, agent)
            && (StreamHome(s, notes, agent) ==> StreamHome(s', more, agent))
            && (frame.Some? && frame.value.TerminalFull? && drawn == agent ==> StreamHome(s', more, agent))
  {
    assert notes + [] == notes;
    if drawn == agent && agent in s.book.sequences && s.book.sequences[agent] < MAX_U64 {
      var c, k := ChaserOf(s.client, agent), s.book.sequences[agent];
      PlainAppend(c.t, notes, k, FullNote(k + 1));
      PlainAppend(c.t, notes, k, DiffNote(k, k + 1));
      FullLeadsHome(c, notes, k);
      if agent in s.book.bases && StreamHome(s, notes, agent) {
        DiffLeadsHome(c, notes, k);
      }
    }
  }

  lemma DrawKeeps(net: C.Net, a: C.Action, agent: AgentId)
    requires Sane(net) && a.Draw? && C.Enabled(net, a)
    ensures Sane(C.Next(net, a))
    ensures Home(net, agent) ==> Home(C.Next(net, a), agent)
    ensures var frame := C.FrameDrawn(net, a);
            frame.Some? && frame.value.TerminalFull? && a.agent == agent ==> Home(C.Next(net, a), agent)
  {
    var next, frame := C.Next(net, a), C.FrameDrawn(net, a);
    S.StepKeepsInv(net.sys, S.Emit(a.agent, a.forceFull, a.terminal));
    C.DrawExtends(net, a);
    C.DrawKeepsSent(net, a);
    C.DrawKeepsTidy(net, a);
    forall x
      ensures AgentPlain(next, x) && (Home(net, x) ==> Home(next, x))
      ensures frame.Some? && frame.value.TerminalFull? && a.agent == x ==> Home(next, x)
    {
      assert AgentPlain(net, x);
      DrawnNotes(net, a, x);
      DrawnStream(net.sys, a.agent, a.forceFull, a.terminal, Notes(C.Pipeline(net), x), x);
    }
  }

  lemma DrawnNotes(net: C.Net, a: C.Action, agent: AgentId)
    requires a.Draw? && C.Enabled(net, a)
    ensures var frame := C.FrameDrawn(net, a);
            Notes(C.Pipeline(C.Next(net, a)), agent)
            == Notes(C.Pipeline(net), agent) + if frame.Some? then NotesOf(frame.value, agent) else []
  {
    var frame := C.FrameDrawn(net, a);
    C.DrawExtends(net, a);
    if frame.Some? {
      C.AppendKeepsNotes(C.Pipeline(net), frame.value, agent);
    } else {
      assert C.Pipeline(net) + [] == C.Pipeline(net);
      assert Notes(C.Pipeline(net), agent) + [] == Notes(C.Pipeline(net), agent);
    }
  }

  /** The oldest message is taken off the wire, and thrown away. */
  function Discarded(net: C.Net): C.Net
    requires |net.wire| > 0
  {
    net.(wire := net.wire[1..])
  }

  /** The client would take the next message, and takes no full frame of the agent after it. */
  predicate Needs(net: C.Net, agent: AgentId)
    requires |net.wire| > 0
  {
    var note := NotesOf(net.wire[0], agent);
    && |note| == 1 && agent in net.sys.book.bases
    && FollowOne(Held(net.sys.client, agent), note[0]) != Held(net.sys.client, agent)
    && !TakesFull(ChaseOne(ChaserOf(net.sys.client, agent), note[0]), Notes(C.Pipeline(Discarded(net)), agent))
  }

  lemma OldestNotes(net: C.Net, agent: AgentId)
    requires |net.wire| > 0
    ensures Notes(C.Pipeline(net), agent) ==
            NotesOf(net.wire[0], agent) + Notes(C.Pipeline(Discarded(net)), agent)
    ensures net.wire[0] in C.Pipeline(net)
  {
    assert C.Pipeline(net) == [net.wire[0]] + C.Pipeline(Discarded(net));
    NotesConcat([net.wire[0]], C.Pipeline(Discarded(net)), agent);
    NotesSingle(net.wire[0], agent);
  }

  lemma DeliveredStream(s: S.System, m: Message, rest: seq<Note>, agent: AgentId)
    requires S.Inv(s) && (IsNumbered(m) ==> m in s.sent) && StreamPlain(s, NotesOf(m, agent) + rest, agent)
    ensures var s' := S.Next(s, S.Deliver(m));
            && StreamPlain(s', rest, agent)
            && (StreamHome(s', rest, agent) <==> StreamHome(s, NotesOf(m, agent) + rest, agent))
  {
    var c, notes := ChaserOf(s.client, agent), NotesOf(m, agent);
    ReceiveChases(s, m, agent);
    ChaseConcat(c, notes, rest);
    ChaseFollows(c, notes);
    if |notes| == 1 {
      assert notes == [notes[0]];
      ChaseSingle(c, notes[0]);
      if agent in s.book.sequences {
        PlainDrop(c.t, notes[0], rest, s.book.sequences[agent]);
      }
    } else {
      assert notes + rest == rest;
    }
  }

  lemma DeliverKeeps(net: C.Net, agent: AgentId)
    requires Sane(net) && |net.wire| > 0
    ensures Sane(C.Next(net, C.Deliver))
    ensures Home(C.Next(net, C.Deliver), agent) <==> Home(net, agent)
  {
    var next, m := C.Next(net, C.Deliver), net.wire[0];
    S.StepKeepsInv(net.sys, S.Deliver(m));
    assert C.Pipeline(next) == C.Pipeline(Discarded(net));
    forall x
      ensures AgentPlain(next, x) && (Home(next, x) <==> Home(net, x))
    {
      assert AgentPlain(net, x);
      OldestNotes(net, x);
      DeliveredStream(net.sys, m, Notes(C.Pipeline(next), x), x);
    }
    OldestNotes(net, agent);
    FewerSent(net, next);
  }

  lemma FewerSent(net: C.Net, next: C.Net)
    requires C.AllSent(net) && next.sys.sent == net.sys.sent
    requires |net.wire| > 0 && C.Pipeline(next) == C.Pipeline(Discarded(net))
    ensures C.AllSent(next)
  {
    assert C.Pipeline(net) == [net.wire[0]] + C.Pipeline(next);
    assert forall m | m in C.Pipeline(next) :: m in C.Pipeline(net);
  }

  lemma DiscardedStream(s: S.System, notes: seq<Note>, rest: seq<Note>, agent: AgentId)
    requires S.Inv(s) && |notes| <= 1 && StreamPlain(s, notes + rest, agent)
    requires agent !in s.used ==> notes == []
    ensures StreamPlain(s, rest, agent)
    ensures var c := ChaserOf(s.client, agent);
            StreamHome(s, notes + rest, agent) ==>
              (StreamHome(s, rest, agent) <==>
               !(agent in s.book.bases && |notes| == 1 && FollowOne(c.t, notes[0]) != c.t
                 && !TakesFull(ChaseOne(c, notes[0]), rest)))
  {
    if |notes| == 1 {
      assert notes == [notes[0]];
      if agent in s.book.sequences {
        PlainDrop(Held(s.client, agent), notes[0], rest, s.book.sequences[agent]);
        if agent in s.book.bases && StreamHome(s, notes + rest, agent) {
          DiscardExactly(ChaserOf(s.client, agent), notes[0], rest, s.book.sequences[agent]);
        }
      }
    } else {
      assert notes + rest == rest;
    }
  }

  lemma DiscardKeeps(net: C.Net, agent: AgentId)
    requires Sane(net) && |net.wire| > 0
    ensures Sane(Discarded(net))
    ensures Home(net, agent) ==> (Home(Discarded(net), agent) <==> !Needs(net, agent))
  {
    var next := Discarded(net);
    FewerSent(net, next);
    forall x
      ensures AgentPlain(next, x) && (Home(net, x) ==> (Home(next, x) <==> !Needs(net, x)))
    {
      assert AgentPlain(net, x);
      OldestNotes(net, x);
      DiscardedStream(net.sys, NotesOf(net.wire[0], x), Notes(C.Pipeline(next), x), x);
    }
  }

  // ---------------------------------------------------------------------------------------------
  // Steps that change no numbers
  // ---------------------------------------------------------------------------------------------

  lemma QuietStepKeepsAsking(s: S.System, a: S.Action, agent: AgentId)
    requires C.IsQuiet(a)
    ensures agent in S.Next(s, a).client.pendingResync <==> agent in s.client.pendingResync
    ensures var s' := S.Next(s, a);
            agent in s'.book.bases ==> s'.book.bases[agent].sequence == s.book.bases[agent].sequence
  {
  }

  lemma QuietStream(s: S.System, a: S.Action, notes: seq<Note>, agent: AgentId)
    requires S.Inv(s) && C.IsQuiet(a) && StreamPlain(s, notes, agent)
    ensures StreamPlain(S.Next(s, a), notes, agent)
    ensures StreamHome(s, notes, agent) ==> StreamHome(S.Next(s, a), notes, agent)
  {
    C.QuietStepKeepsNumbers(s, a);
    QuietStepKeepsAsking(s, a, agent);
  }

  lemma QuietKeeps(net: C.Net, a: S.Action, agent: AgentId)
    requires Sane(net) && C.IsQuiet(a)
    ensures var next := net.(sys := S.Next(net.sys, a)); Sane(next) && (Home(net, agent) ==> Home(next, agent))
  {
    var next := net.(sys := S.Next(net.sys, a));
    S.StepKeepsInv(net.sys, a);
    C.QuietStepKeepsNumbers(net.sys, a);
    forall x
      ensures AgentPlain(next, x) && (Home(net, x) ==> Home(next, x))
    {
      assert AgentPlain(net, x);
      QuietStream(net.sys, a, Notes(C.Pipeline(net), x), x);
    }
  }

  lemma SayKeeps(net: C.Net, m: Message, next: C.Net, agent: AgentId)
    requires Sane(net) && net.attached && next == net.(unsent := net.unsent + [m])
    requires m.Other? || (m.TerminalViewport? && m.agent in net.sys.book.sequences && !C.Pending(net.unsent, m.agent))
    ensures Sane(next) && (Home(net, agent) ==> Home(next, agent))
  {
    assert C.Pipeline(next) == C.Pipeline(net) + [m];
    forall x
      ensures AgentPlain(next, x) && (Home(net, x) ==> Home(next, x))
    {
      assert AgentPlain(net, x);
      C.AppendKeepsNotes(C.Pipeline(net), m, x);
    }
  }

  lemma ClosedStream(s: S.System, closed: AgentId, notes: seq<Note>, more: seq<Note>, agent: AgentId)
    requires S.Inv(s) && closed in s.book.sequences && StreamPlain(s, notes, agent)
    requires agent != closed ==> more == notes
    ensures StreamPlain(S.Next(s, S.Remove(closed)), more, agent)
    ensures StreamHome(s, notes, agent) ==> StreamHome(S.Next(s, S.Remove(closed)), more, agent)
  {
  }

  lemma CloseKeepsTidy(net: C.Net, agent: AgentId)
    requires C.AllSent(net) && C.Tidy(net) && C.Enabled(net, C.Close(agent))
    ensures C.AllSent(C.Next(net, C.Close(agent))) && C.Tidy(C.Next(net, C.Close(agent)))
  {
    var next := C.Next(net, C.Close(agent));
    assert net.attached ==> C.Pipeline(next) == C.Pipeline(net) + [AgentGone(agent)];
    forall i | 0 <= i < |net.unsent| && Q.IsTerminal(net.unsent[i])
      ensures Q.TerminalFrame(net.unsent[i]).value.0 != agent
    {
      assert !Q.IsOf(net.unsent[i], agent);
    }
  }

  lemma CloseKeeps(net: C.Net, closed: AgentId, agent: AgentId)
    requires Sane(net) && C.Enabled(net, C.Close(closed))
    ensures Sane(C.Next(net, C.Close(closed)))
    ensures Home(net, agent) ==> Home(C.Next(net, C.Close(closed)), agent)
  {
    var next := C.Next(net, C.Close(closed));
    S.StepKeepsInv(net.sys, S.Remove(closed));
    CloseKeepsTidy(net, closed);
    assert C.Pipeline(next) == C.Pipeline(net) + if net.attached then [AgentGone(closed)] else [];
    forall x
      ensures AgentPlain(next, x) && (Home(net, x) ==> Home(next, x))
    {
      assert AgentPlain(net, x);
      C.AppendKeepsNotes(C.Pipeline(net), AgentGone(closed), x);
      ClosedStream(net.sys, closed, Notes(C.Pipeline(net), x), Notes(C.Pipeline(next), x), x);
    }
  }

  lemma HangupKeeps(net: C.Net, agent: AgentId)
    requires S.Inv(net.sys)
    ensures Sane(C.Hangup(net)) && Sane(C.Hangup(net).(attached := true))
    ensures Home(C.Hangup(net), agent) && Home(C.Hangup(net).(attached := true), agent)
  {
    C.HangupKeepsInv(net);
    EmptyIsSane(C.Hangup(net), agent);
    EmptyIsSane(C.Hangup(net).(attached := true), agent);
  }

  lemma EmptyIsSane(net: C.Net, agent: AgentId)
    requires C.NetInv(net) && C.Pipeline(net) == [] && net.sys.book.bases == map[] && net.sys.client == EMPTY
    ensures Sane(net) && Home(net, agent)
  {
    forall x
      ensures AgentPlain(net, x)
    {
      assert C.AgentOk(net, x) && Notes(C.Pipeline(net), x) == [];
    }
  }

  lemma SamePipelineKeeps(net: C.Net, next: C.Net, agent: AgentId)
    requires Sane(net) && net.attached && next.sys == net.sys && C.Pipeline(next) == C.Pipeline(net)
    requires |next.queue| <= Q.CONNECTION_QUEUE && next.attached && C.Tidy(next)
    ensures Sane(next) && (Home(next, agent) <==> Home(net, agent))
  {
    forall x
      ensures AgentPlain(next, x)
    {
      assert AgentPlain(net, x);
    }
  }

  // ---------------------------------------------------------------------------------------------
  // Pushing
  // ---------------------------------------------------------------------------------------------

  /** A full frame or viewport evicts its agent's frames: that leads home exactly if the newest is not among them. */
  lemma SwapKeeps(net: C.Net, evicted: AgentId, agent: AgentId)
    requires Sane(net) && net.attached && |net.unsent| > 0 && Q.IsOf(net.unsent[0], evicted)
    requires net.unsent[0].TerminalFull? || net.unsent[0].TerminalViewport?
    requires |Q.Without(net.queue, evicted)| < Q.CONNECTION_QUEUE
    ensures Sane(C.Swapped(net, evicted))
    ensures Home(net, agent) ==>
              (Home(C.Swapped(net, evicted), agent) <==> !(agent == evicted && C.HoldsNewest(net, agent)))
  {
    var next := C.Swapped(net, evicted);
    C.SwapKeepsSent(net, evicted);
    forall x
      ensures AgentPlain(next, x)
      ensures Home(net, x) ==> (Home(next, x) <==> !(x == evicted && C.HoldsNewest(net, x)))
    {
      assert AgentPlain(net, x);
      if x == evicted {
        SwappedStream(net, x);
      } else {
        C.SwapSparesOthers(net, evicted, x);
      }
    }
  }

  lemma SwappedStream(net: C.Net, agent: AgentId)
    requires Sane(net) && |net.unsent| > 0 && Q.IsOf(net.unsent[0], agent)
    requires net.unsent[0].TerminalFull? || net.unsent[0].TerminalViewport?
    ensures AgentPlain(C.Swapped(net, agent), agent)
    ensures Home(net, agent) ==> (Home(C.Swapped(net, agent), agent) <==> !C.HoldsNewest(net, agent))
  {
    assert Q.TerminalFrame(net.unsent[0]).value.0 in net.sys.book.sequences;
    SaneIsNumbered(net, agent);
    C.SwapOwnNotes(net, agent);
    assert AgentPlain(net, agent);
    var c, k := ChaserOf(net.sys.client, agent), net.sys.book.sequences[agent];
    var w, q, pushed := Notes(net.wire, agent), Notes(net.queue, agent), NotesOf(net.unsent[0], agent);
    PlainEvict(c.t, w, q, pushed, k);
    C.HoldsMeansQueued(net.queue, agent, k);
    if Home(net, agent) && agent in net.sys.book.bases {
      assert net.sys.book.bases[agent].sequence == k;
      EvictExactly(c, w, q, pushed, k);
    }
  }

  /** The pipeline in which a frame made anew takes the place of everything evicted. */
  function Replaced(net: C.Net, terminal: TerminalSnapshot, evicted: AgentId, queued: seq<Message>): C.Net
    requires |net.unsent| > 0 && F.NextFrame(net.sys.book, evicted, true, terminal).1.Some?
  {
    C.Net(S.Next(net.sys, S.Emit(evicted, true, terminal)), true, net.unsent[1..],
          Q.Without(net.queue, evicted) + queued + [F.NextFrame(net.sys.book, evicted, true, terminal).1.value],
          net.wire)
  }

  predicate Replaces(net: C.Net, terminal: TerminalSnapshot, evicted: AgentId, queued: seq<Message>) {
    && net.attached && |net.unsent| > 0 && Valid(terminal)
    && F.NextFrame(net.sys.book, evicted, true, terminal).1.Some?
    && queued == (if Q.IsTerminal(net.unsent[0]) then [] else [net.unsent[0]])
    && (Q.IsTerminal(net.unsent[0]) ==> Q.IsOf(net.unsent[0], evicted))
  }

  lemma ReplaceKeeps(net: C.Net, terminal: TerminalSnapshot, evicted: AgentId, queued: seq<Message>, agent: AgentId)
    requires Sane(net) && Replaces(net, terminal, evicted, queued)
    requires |Q.Without(net.queue, evicted)| + |queued| < Q.CONNECTION_QUEUE
    ensures var next := Replaced(net, terminal, evicted, queued);
            Sane(next) && (Home(net, agent) || agent == evicted ==> Home(next, agent))
  {
    var next := Replaced(net, terminal, evicted, queued);
    S.StepKeepsInv(net.sys, S.Emit(evicted, true, terminal));
    C.ReplacedKeepsSent(net, next, evicted, queued, F.NextFrame(net.sys.book, evicted, true, terminal).1.value);
    forall x
      ensures AgentPlain(next, x) && (Home(net, x) || x == evicted ==> Home(next, x))
    {
      assert AgentPlain(net, x);
      if x == evicted {
        OwnReplacedStream(net, terminal, evicted, queued);
      } else {
        C.ReplacedSparesOthers(
          net, evicted, queued, F.NextFrame(net.sys.book, evicted, true, terminal).1.value, next, x);
      }
    }
  }

  lemma OwnReplacedNotes(net: C.Net, frame: Message, next: C.Net, agent: AgentId, queued: seq<Message>)
    requires Sane(net) && |net.unsent| > 0 && agent in net.sys.book.sequences
    requires queued == if Q.IsTerminal(net.unsent[0]) then [] else [net.unsent[0]]
    requires Q.IsTerminal(net.unsent[0]) ==> Q.IsOf(net.unsent[0], agent)
    requires frame.TerminalFull? && frame.agent == agent
    requires next.wire == net.wire && next.unsent == net.unsent[1..]
    requires next.queue == Q.Without(net.queue, agent) + queued + [frame]
    ensures Notes(C.Pipeline(next), agent) ==
            Notes(net.wire, agent) + [FullNote(frame.sequence)] + Notes(net.unsent[1..], agent)
  {
    var w, rest := Notes(net.wire, agent), Notes(net.unsent[1..], agent);
    C.ReplacedNotes(net, agent, queued, frame, next, agent);
    OwnParts(net, queued, agent);
    OnlyNote(w, Notes(Q.Without(net.queue, agent), agent), Notes(queued, agent), NotesOf(frame, agent), rest);
  }

  lemma OnlyNote<T>(w: seq<T>, a: seq<T>, b: seq<T>, c: seq<T>, d: seq<T>)
    requires a == [] && b == []
    ensures w + (a + b + c) + d == w + c + d
  {
    assert a + b + c == c;
  }

  lemma ReplacedBook(s: S.System, terminal: TerminalSnapshot, agent: AgentId, notes: seq<Note>)
    requires S.Inv(s) && Valid(terminal) && agent in s.book.sequences && s.book.sequences[agent] < MAX_U64
    requires Plain(Held(s.client, agent), notes, s.book.sequences[agent] + 1)
    requires LeadsHome(ChaserOf(s.client, agent), notes, s.book.sequences[agent] + 1)
    ensures var s' := S.Next(s, S.Emit(agent, true, terminal));
            StreamPlain(s', notes, agent) && StreamHome(s', notes, agent)
  {
  }

  lemma OwnReplacedStream(net: C.Net, terminal: TerminalSnapshot, agent: AgentId, queued: seq<Message>)
    requires Sane(net) && Replaces(net, terminal, agent, queued)
    ensures AgentPlain(Replaced(net, terminal, agent, queued), agent)
    ensures Home(Replaced(net, terminal, agent, queued), agent)
  {
    var next := Replaced(net, terminal, agent, queued);
    ForcedFrame(net.sys.book, agent, terminal);
    OwnReplacedNotes(net, TerminalFull(agent, net.sys.book.sequences[agent] + 1, terminal), next, agent, queued);
    OwnInserted(net, queued, agent);
    ReplacedBook(net.sys, terminal, agent, Notes(C.Pipeline(next), agent));
  }

  lemma ForcedFrame(b: F.BookState, agent: AgentId, terminal: TerminalSnapshot)
    requires F.NextFrame(b, agent, true, terminal).1.Some?
    ensures agent in b.sequences && b.sequences[agent] < MAX_U64
    ensures F.NextFrame(b, agent, true, terminal).1.value == TerminalFull(agent, b.sequences[agent] + 1, terminal)
  {
  }

  lemma OwnInserted(net: C.Net, queued: seq<Message>, agent: AgentId)
    requires Sane(net) && |net.unsent| > 0 && agent in net.sys.book.sequences
    requires queued == if Q.IsTerminal(net.unsent[0]) then [] else [net.unsent[0]]
    requires Q.IsTerminal(net.unsent[0]) ==> Q.IsOf(net.unsent[0], agent)
    requires net.sys.book.sequences[agent] < MAX_U64
    ensures var (c, k) := (ChaserOf(net.sys.client, agent), net.sys.book.sequences[agent]);
            var notes := Notes(net.wire, agent) + [FullNote(k + 1)] + Notes(net.unsent[1..], agent);
            Plain(c.t, notes, k + 1) && LeadsHome(c, notes, k + 1)
  {
    OwnParts(net, queued, agent);
    assert AgentPlain(net, agent);
    Inserted(
      ChaserOf(net.sys.client, agent), Notes(net.wire, agent), Notes(net.queue, agent),
      NotesOf(net.unsent[0], agent), Notes(net.unsent[1..], agent), net.sys.book.sequences[agent]);
  }

  lemma Inserted(c: Chaser, w: seq<Note>, q: seq<Note>, head: seq<Note>, rest: seq<Note>, k: u64)
    requires Plain(c.t, w + q + (head + rest), k) && k < MAX_U64
    ensures Plain(c.t, w + [FullNote(k + 1)] + rest, k + 1) && LeadsHome(c, w + [FullNote(k + 1)] + rest, k + 1)
  {
    Regrouped(w, q, head, rest);
    PlainReplace(c.t, w, q + head, rest, k);
    InsertedLeadsHome(c, w, q + head, rest, k);
  }

  lemma Regrouped<T>(a: seq<T>, b: seq<T>, c: seq<T>, d: seq<T>)
    ensures a + b + (c + d) == a + (b + c) + d
  {
  }

  /** Nothing the evicted agent had in the queue is left, and nothing of it is queued with the replacement. */
  lemma OwnParts(net: C.Net, queued: seq<Message>, agent: AgentId)
    requires Sane(net) && |net.unsent| > 0 && agent in net.sys.book.sequences
    requires queued == if Q.IsTerminal(net.unsent[0]) then [] else [net.unsent[0]]
    requires Q.IsTerminal(net.unsent[0]) ==> Q.IsOf(net.unsent[0], agent)
    ensures Notes(Q.Without(net.queue, agent), agent) == [] && Notes(queued, agent) == []
    ensures Notes(C.Pipeline(net), agent) == Notes(net.wire, agent) + Notes(net.queue, agent)
                                             + (NotesOf(net.unsent[0], agent) + Notes(net.unsent[1..], agent))
  {
    var w, q := Notes(net.wire, agent), Notes(net.queue, agent);
    var head, rest := NotesOf(net.unsent[0], agent), Notes(net.unsent[1..], agent);
    C.PipelineNotes(net, agent);
    SaneIsNumbered(net, agent);
    AllNumberedConcat(w + q, head + rest);
    AllNumberedConcat(w, q);
    AllNumberedConcat(head, rest);
    C.EvictionTakesAll(net.queue, agent);
    NotesSingle(net.unsent[0], agent);
    if !Q.IsTerminal(net.unsent[0]) {
      C.NotAFrameOf(net.unsent[0], agent);
    }
  }

  predicate LosesOf(net: C.Net, a: C.Action, agent: AgentId) {
    C.Loses(net, a) && net.unsent[0].agent == agent
  }

  lemma PushKeeps(net: C.Net, terminal: TerminalSnapshot, agent: AgentId)
    requires Sane(net) && C.Enabled(net, C.PushNext(terminal))
    ensures var a := C.PushNext(terminal);
            && Sane(C.Next(net, a))
            && (Home(net, agent) ==> (Home(C.Next(net, a), agent) <==> !LosesOf(net, a, agent)))
  {
    var m, q0, next := net.unsent[0], Q.QueueState(net.queue, false), C.Next(net, C.PushNext(terminal));
    HangupKeeps(net, agent);
    Q.RefusalChangesNothing(q0, m);
    if |net.queue| < Q.CONNECTION_QUEUE {
      SamePipelineKeeps(net, next, agent);
    } else if m.TerminalFull? || m.TerminalViewport? {
      Q.RefusedExactlyWhenNothingToEvict(q0, m);
      if Q.Push(q0, m).1 != Q.Full {
        C.PushCompleteSwaps(net, terminal);
        SwapKeeps(net, m.agent, agent);
      } else {
        C.RefusedHoldsNothing(net, m.agent);
      }
    } else if Q.Push(q0, m).1 != Q.Full {
      var evicted := Q.Push(q0, m).1.agent;
      var queued := if Q.IsTerminal(m) then [] else [m];
      assert Q.Push(q0, m).0.frames == Q.Without(net.queue, evicted) + queued;
      PushMaybeReplaced(net, terminal, evicted, queued, agent);
    }
  }

  lemma PushMaybeReplaced(
    net: C.Net, terminal: TerminalSnapshot, evicted: AgentId, queued: seq<Message>, agent: AgentId)
    requires Sane(net) && C.Enabled(net, C.PushNext(terminal)) && |net.queue| == Q.CONNECTION_QUEUE
    requires !net.unsent[0].TerminalFull? && !net.unsent[0].TerminalViewport?
    requires queued == if Q.IsTerminal(net.unsent[0]) then [] else [net.unsent[0]]
    requires Q.Push(Q.QueueState(net.queue, false), net.unsent[0]) ==
             (Q.QueueState(Q.Without(net.queue, evicted) + queued, false), Q.NeedsFull(evicted))
    ensures var next := C.Next(net, C.PushNext(terminal)); Sane(next) && (Home(net, agent) ==> Home(next, agent))
  {
    var frame := F.NextFrame(net.sys.book, evicted, true, terminal).1;
    if frame.Some? && |Q.Without(net.queue, evicted) + queued| < Q.CONNECTION_QUEUE {
      C.NextWithReplacement(net, terminal, evicted, queued);
      ReplaceKeeps(net, terminal, evicted, queued, agent);
    } else {
      C.NoReplacementHangsUp(net, terminal, evicted, queued);
      HangupKeeps(net, agent);
    }
  }

  /** Every step of the pipeline, whatever it loses. */
  lemma NetStep(net: C.Net, a: C.Action, agent: AgentId)
    requires Sane(net)
    ensures Sane(C.Next(net, a))
    ensures Home(net, agent) ==> (Home(C.Next(net, a), agent) <==> !LosesOf(net, a, agent))
  {
    if C.Enabled(net, a) {
      match a {
        case Spawn(x) => QuietKeeps(net, S.Register(x), agent);
        case Close(x) => CloseKeeps(net, x, agent);
        case ClearBases => QuietKeeps(net, S.ClearBases, agent);
        case Draw(_, _, _) => DrawKeeps(net, a, agent);
        case View(x, requested, scrollback, snapshot) =>
          SayKeeps(net, TerminalViewport(x, requested, scrollback, snapshot), C.Next(net, a), agent);
        case Say(tag) => SayKeeps(net, Other(tag), C.Next(net, a), agent);
        case PushNext(terminal) => PushKeeps(net, terminal, agent);
        case Pop => PopKeeps(net, agent);
        case Deliver => DeliverKeeps(net, agent);
        case Attach => HangupKeeps(net, agent);
        case Detach => HangupKeeps(net, agent);
        case Ack(x, sequence) => QuietKeeps(net, S.Ack(x, sequence), agent);
        case Scroll(x, rows) => QuietKeeps(net, S.Scroll(x, rows), agent);
      }
    }
  }

  lemma PopKeeps(net: C.Net, agent: AgentId)
    requires Sane(net) && |net.queue| > 0
    ensures Sane(C.Next(net, C.Pop)) && (Home(C.Next(net, C.Pop), agent) <==> Home(net, agent))
  {
    assert C.Pipeline(C.Next(net, C.Pop)) == C.Pipeline(net);
    assert net.queue[0] in C.Pipeline(net);
    SamePipelineKeeps(net, C.Next(net, C.Pop), agent);
  }

  // ---------------------------------------------------------------------------------------------
  // The loop: frames there, requests back
  // ---------------------------------------------------------------------------------------------

  /** `asked` are the agents whose full frames the client has asked for, the server not having answered yet. */
  datatype Loop = Loop(net: C.Net, asked: seq<AgentId>)

  const START := Loop(C.START, [])

  /**
   `Discard` throws away the oldest message on the wire. `Answer` makes a full frame of the agent asked for
   first, whose screen is now `terminal`.
   */
  datatype Action = Do(step: C.Action) | Discard | Answer(terminal: TerminalSnapshot)

  /** The agents that the client's requests are about, where they are for full frames. */
  function Resyncs(requests: seq<ClientRequest>): seq<AgentId> {
    if |requests| == 0 then []
    else (if requests[0].Resync? then [requests[0].agent] else []) + Resyncs(requests[1..])
  }

  function Sent(net: C.Net, a: C.Action): seq<AgentId> {
    if a.Deliver? && |net.wire| > 0 && Sound(net.sys.client) then Resyncs(Receive(net.sys.client, net.wire[0]).1)
    else []
  }

  function Drawing(l: Loop, a: Action): C.Action
    requires a.Answer? && |l.asked| > 0
  {
    C.Draw(l.asked[0], true, a.terminal)
  }

  /** Requests of a connection that is gone are not answered any more. */
  function Next(l: Loop, a: Action): Loop {
    match a
    case Do(step) =>
      var net := C.Next(l.net, step);
      Loop(net, if net.attached then l.asked + Sent(l.net, step) else [])
    case Discard => if |l.net.wire| == 0 then l else l.(net := Discarded(l.net))
    case Answer(_) =>
      if |l.asked| == 0 || !C.Enabled(l.net, Drawing(l, a)) then l
      else Loop(C.Next(l.net, Drawing(l, a)), l.asked[1..])
  }

  /** The guard of the steps after which an agent on its way home is so no more. */
  predicate Loses(l: Loop, a: Action, agent: AgentId) {
    match a
    case Do(step) => LosesOf(l.net, step, agent)
    case Discard => |l.net.wire| > 0 && Needs(l.net, agent)
    case Answer(_) => false
  }

  /** The step makes a full frame of the agent. */
  predicate MakesFull(l: Loop, a: Action, agent: AgentId) {
    var step := match a
                case Do(step) => step
                case Discard => C.Pop
                case Answer(terminal) => if |l.asked| > 0 then Drawing(l, a) else C.Pop;
    && step.Draw? && step.agent == agent && C.Enabled(l.net, step)
    && C.FrameDrawn(l.net, step).Some? && C.FrameDrawn(l.net, step).value.TerminalFull?
  }

  /**
   A step makes an agent head home if it makes a full frame of it, whatever has been lost; and otherwise
   leaves it on its way exactly if it does not lose what is needed.
   */
  lemma StepExactly(l: Loop, a: Action, agent: AgentId)
    requires Sane(l.net)
    ensures Sane(Next(l, a).net)
    ensures MakesFull(l, a, agent) ==> Home(Next(l, a).net, agent)
    ensures Home(l.net, agent) ==> (Home(Next(l, a).net, agent) <==> !Loses(l, a, agent))
  {
    match a {
      case Do(step) =>
        NetStep(l.net, step, agent);
        if MakesFull(l, a, agent) {
          DrawKeeps(l.net, step, agent);
        }
      case Discard =>
        if |l.net.wire| > 0 {
          DiscardKeeps(l.net, agent);
        }
      case Answer(_) =>
        if |l.asked| > 0 && C.Enabled(l.net, Drawing(l, a)) {
          DrawKeeps(l.net, Drawing(l, a), agent);
        }
    }
  }

  ghost predicate IsRun(states: seq<Loop>, actions: seq<Action>) {
    && |states| == |actions| + 1 && states[0] == START
    && forall i | 0 <= i < |actions| :: states[i + 1] == Next(states[i], actions[i])
  }

  lemma {:induction false} RunIsSane(states: seq<Loop>, actions: seq<Action>, n: nat)
    requires IsRun(states, actions) && n <= |actions|
    ensures Sane(states[n].net)
  {
    if n == 0 {
      forall agent
        ensures AgentPlain(C.START, agent)
      {
        assert Notes(C.Pipeline(C.START), agent) == [];
      }
    } else {
      RunIsSane(states, actions, n - 1);
      StepExactly(states[n - 1], actions[n - 1], 0);
    }
  }

  ghost predicate Keeps(states: seq<Loop>, actions: seq<Action>, m: nat, n: nat, agent: AgentId)
    requires n <= |actions| < |states|
  {
    forall i | m <= i < n :: !Loses(states[i], actions[i], agent)
  }

  predicate AllHome(states: seq<Loop>, m: nat, n: nat, agent: AgentId)
    requires n < |states|
  {
    forall i | m <= i <= n :: Home(states[i].net, agent)
  }

  lemma OneMoreHome(states: seq<Loop>, actions: seq<Action>, m: nat, n: nat, agent: AgentId)
    requires m <= n < |actions| < |states|
    ensures AllHome(states, m, n + 1, agent) <==> AllHome(states, m, n, agent) && Home(states[n + 1].net, agent)
    ensures Keeps(states, actions, m, n + 1, agent) <==>
            Keeps(states, actions, m, n, agent) && !Loses(states[n], actions[n], agent)
    ensures AllHome(states, m, n, agent) ==> Home(states[n].net, agent)
  {
  }

  lemma {:induction false} HomeExactly(states: seq<Loop>, actions: seq<Action>, m: nat, n: nat, agent: AgentId)
    requires IsRun(states, actions) && m <= n <= |actions| && Home(states[m].net, agent)
    ensures AllHome(states, m, n, agent) <==> Keeps(states, actions, m, n, agent)
  {
    if m < n {
      var last := n - 1;
      HomeExactly(states, actions, m, last, agent);
      OneMoreHome(states, actions, m, last, agent);
      OneStepExactly(states, actions, last, agent);
    }
  }

  lemma OneStepExactly(states: seq<Loop>, actions: seq<Action>, n: nat, agent: AgentId)
    requires IsRun(states, actions) && n < |actions|
    ensures Home(states[n].net, agent) ==>
              (Home(states[n + 1].net, agent) <==> !Loses(states[n], actions[n], agent))
  {
    RunIsSane(states, actions, n);
    StepExactly(states[n], actions[n], agent);
  }

  /** Where the client ends up if it takes in all that is on its way is the server's newest frame of the agent. */
  ghost predicate Mended(net: C.Net, agent: AgentId) {
    agent in net.sys.book.bases ==>
      UpToDate(C.Drained(net.sys, C.Pipeline(net)).client, agent, net.sys.book.bases[agent])
  }

  /**
   Main result, for one agent of any run, whatever it has lost: once a full frame of the agent is made, the
   client is headed for the server's newest number and screen of it, asking for nothing, in every later
   state, exactly if no step since has lost it a frame it needed.
   */
  lemma RecoveryExactly(states: seq<Loop>, actions: seq<Action>, m: nat, n: nat, agent: AgentId)
    requires IsRun(states, actions) && m < n <= |actions| && MakesFull(states[m], actions[m], agent)
    ensures (forall i | m < i <= n :: Mended(states[i].net, agent)) <==> Keeps(states, actions, m + 1, n, agent)
  {
    RunIsSane(states, actions, m);
    StepExactly(states[m], actions[m], agent);
    HomeExactly(states, actions, m + 1, n, agent);
    forall i | m < i <= n
      ensures Mended(states[i].net, agent) <==> Home(states[i].net, agent)
    {
      RunIsSane(states, actions, i);
      if agent in states[i].net.sys.book.bases {
        HomeMeans(states[i].net, agent);
      }
    }
  }

  /** So with nothing more on its way the client has arrived. */
  lemma NothingOnItsWay(net: C.Net, agent: AgentId)
    requires Mended(net, agent) && C.Pipeline(net) == [] && agent in net.sys.book.bases
    ensures UpToDate(net.sys.client, agent, net.sys.book.bases[agent])
  {
  }

  /** A frame the client can make nothing of puts exactly one request on its way, if none of the agent is pending. */
  lemma GapIsAsked(states: seq<Loop>, actions: seq<Action>, n: nat)
    requires IsRun(states, actions) && n < |actions| && actions[n] == Do(C.Deliver) && |states[n].net.wire| > 0
    ensures var c, m := states[n].net.sys.client, states[n].net.wire[0];
            && Sound(c)
            && states[n + 1].asked == states[n].asked +
               if IsNumbered(m) && Unusable(c, m) && m.agent !in c.pendingResync then [m.agent] else []
  {
    RunIsSane(states, actions, n);
    var c, m := states[n].net.sys.client, states[n].net.wire[0];
    assert m in C.Pipeline(states[n].net);
    NoOtherAsks(c, m);
  }

  lemma NoOtherAsks(c: ClientState, m: Message)
    requires Sound(c)
    ensures Resyncs(Receive(c, m).1) ==
            if IsNumbered(m) && Unusable(c, m) && m.agent !in c.pendingResync then [m.agent] else []
  {
    var sent := Receive(c, m).1;
    assert |sent| <= 1;
    if IsNumbered(m) {
      GapAsksOnce(c, m);
    }
    if |sent| == 1 {
      assert sent[1..] == [];
    }
  }

  // ---------------------------------------------------------------------------------------------
  // When the answer is lost
  // ---------------------------------------------------------------------------------------------

  function After(l: Loop, actions: seq<Action>): Loop
    decreases |actions|
  {
    if |actions| == 0 then l else After(Next(l, actions[0]), actions[1..])
  }

  /** Nothing is on its way, and the server's last frame of the agent was number `n`. */
  ghost predicate Resting(l: Loop, agent: AgentId, n: u64, terminal: TerminalSnapshot) {
    && Sane(l.net) && l.net.attached && l.net.unsent == [] && l.net.queue == [] && l.net.wire == []
    && agent in l.net.sys.book.bases && l.net.sys.book.bases[agent].sequence == n
    && l.net.sys.book.bases[agent].snapshot == terminal
  }

  lemma AfterFirst(l: Loop, a: Action, rest: seq<Action>)
    ensures After(l, [a] + rest) == After(Next(l, a), rest)
  {
    assert ([a] + rest)[1..] == rest;
  }

  lemma AfterFour(l: Loop, a: Action, b: Action, c: Action, d: Action)
    ensures After(l, [a, b, c, d]) == Next(Next(Next(Next(l, a), b), c), d)
  {
    AfterFirst(l, a, [b, c, d]);
    AfterFirst(Next(l, a), b, [c, d]);
    AfterFirst(Next(Next(l, a), b), c, [d]);
    AfterFirst(Next(Next(Next(l, a), b), c), d, []);
    assert [a, b, c, d] == [a] + [b, c, d] && [b, c, d] == [b] + [c, d] && [c, d] == [c] + [d] && [d] == [d] + [];
  }

  /** The one frame of an agent that is on its way. */
  ghost predicate OnItsWay(l: Loop, net: C.Net, frame: Message, agent: AgentId, n: u64, terminal: TerminalSnapshot) {
    && Sane(net) && net.attached && net.sys.client == l.net.sys.client
    && agent in net.sys.book.bases && net.sys.book.bases[agent].sequence == n
    && net.sys.book.bases[agent].snapshot == terminal
    && IsNumbered(frame) && frame.agent == agent && C.Pipeline(net) == [frame]
  }

  lemma FrameAfter(b: F.BookState, agent: AgentId, n: u64, terminal: TerminalSnapshot, full: bool)
    requires F.Consistent(b) && agent in b.bases && Valid(terminal) && n < MAX_U64
    requires b.bases[agent].sequence == n && b.bases[agent].snapshot == terminal
    ensures var (book, frame) := F.NextFrame(b, agent, full, terminal);
            && frame.Some? && IsNumbered(frame.value) && frame.value.agent == agent
            && NotesOf(frame.value, agent) == [if full then FullNote(n + 1) else DiffNote(n, n + 1)]
            && agent in book.bases && book.bases[agent].sequence == n + 1 && book.bases[agent].snapshot == terminal
  {
    F.FrameLeadsToScreen(b, agent, full, terminal);
  }

  lemma DrawIs(net: C.Net, agent: AgentId, full: bool, terminal: TerminalSnapshot)
    requires Sane(net) && net.attached && net.unsent == [] && Valid(terminal)
    requires F.NextFrame(net.sys.book, agent, full, terminal).1.Some?
    ensures var step, next := C.Draw(agent, full, terminal), C.Next(net, C.Draw(agent, full, terminal));
            && C.Enabled(net, step) && next.attached && next.queue == net.queue && next.wire == net.wire
            && next.unsent == [F.NextFrame(net.sys.book, agent, full, terminal).1.value]
            && next.sys.book == F.NextFrame(net.sys.book, agent, full, terminal).0
            && next.sys.client == net.sys.client
  {
  }

  lemma FrameIsMade(l: Loop, making: Action, agent: AgentId, n: u64, terminal: TerminalSnapshot, full: bool)
      returns (frame: Message)
    requires Resting(l, agent, n, terminal) && n < MAX_U64
    requires making == Do(C.Draw(agent, full, terminal)) || (making == Answer(terminal) && l.asked == [agent] && full)
    ensures var made := Next(l, making);
            && OnItsWay(l, made.net, frame, agent, n + 1, terminal) && made.net.unsent == [frame]
            && made.asked == (if making.Answer? then [] else l.asked)
    ensures NotesOf(frame, agent) == [if full then FullNote(n + 1) else DiffNote(n, n + 1)]
  {
    frame := F.NextFrame(l.net.sys.book, agent, full, terminal).1.value;
    FrameAfter(l.net.sys.book, agent, n, terminal, full);
    DrawIs(l.net, agent, full, terminal);
    StepExactly(l, making, agent);
  }

  lemma FrameIsPushed(l: Loop, made: Loop, frame: Message, agent: AgentId, n: u64, terminal: TerminalSnapshot)
    requires OnItsWay(l, made.net, frame, agent, n, terminal) && made.net.unsent == [frame] && Valid(terminal)
    ensures Next(made, Do(C.PushNext(terminal))) == made.(net := made.net.(queue := [frame], unsent := []))
  {
    OnlyUnsent(made.net, frame);
    PushAlone(made.net, frame, terminal);
    assert made.asked + [] == made.asked;
  }

  lemma PushAlone(net: C.Net, frame: Message, terminal: TerminalSnapshot)
    requires net.attached && net.unsent == [frame] && net.queue == [] && Valid(terminal)
    ensures C.Next(net, C.PushNext(terminal)) == net.(queue := [frame], unsent := [])
  {
    assert [] + [frame] == [frame] && [frame][1..] == [];
  }

  lemma FrameIsWritten(l: Loop, made: Loop, frame: Message, agent: AgentId, n: u64, terminal: TerminalSnapshot)
    requires OnItsWay(l, made.net, frame, agent, n, terminal) && made.net.unsent == [frame] && Valid(terminal)
    ensures var written := Next(Next(made, Do(C.PushNext(terminal))), Do(C.Pop));
            && OnItsWay(l, written.net, frame, agent, n, terminal) && written.net.wire == [frame]
            && written.net.queue == [] && written.net.unsent == [] && written.asked == made.asked
  {
    var pushed := Next(made, Do(C.PushNext(terminal)));
    FrameIsPushed(l, made, frame, agent, n, terminal);
    OnlyUnsent(made.net, frame);
    StepExactly(made, Do(C.PushNext(terminal)), agent);
    assert C.Pipeline(pushed.net) == [frame];
    FrameIsPopped(l, pushed, frame, agent, n, terminal);
  }

  lemma FrameIsPopped(l: Loop, pushed: Loop, frame: Message, agent: AgentId, n: u64, terminal: TerminalSnapshot)
    requires OnItsWay(l, pushed.net, frame, agent, n, terminal) && pushed.net.queue == [frame]
    ensures var written := Next(pushed, Do(C.Pop));
            && OnItsWay(l, written.net, frame, agent, n, terminal) && written.net.wire == [frame]
            && written.net.queue == [] && written.net.unsent == [] && written.asked == pushed.asked
  {
    StepExactly(pushed, Do(C.Pop), agent);
    assert |pushed.net.wire| + |pushed.net.unsent| == 0;
    assert [frame][1..] == [] && [] + [frame] == [frame] && pushed.asked + [] == pushed.asked;
  }

  lemma OnlyUnsent(net: C.Net, frame: Message)
    requires C.Pipeline(net) == [frame] && net.unsent == [frame]
    ensures net.wire == [] && net.queue == []
  {
    assert |net.wire| + |net.queue| == 0;
  }

  /** The last step: the frame is taken in, and may make the client ask, or it is thrown away. */
  lemma FrameIsTaken(
    l: Loop, written: Loop, frame: Message, agent: AgentId, n: u64, terminal: TerminalSnapshot, note: Note, taken: bool)
    requires OnItsWay(l, written.net, frame, agent, n, terminal) && written.net.wire == [frame]
    requires written.net.queue == [] && written.net.unsent == [] && NotesOf(frame, agent) == [note]
    ensures var end, c := Next(written, if taken then Do(C.Deliver) else Discard), ChaserOf(l.net.sys.client, agent);
            && Resting(end, agent, n, terminal)
            && ChaserOf(end.net.sys.client, agent) == (if taken then ChaseOne(c, note) else c)
            && end.asked == written.asked + (if taken && !c.asking && ChaseOne(c, note).asking then [agent] else [])
  {
    assert frame in C.Pipeline(written.net) && [frame][1..] == [];
    if taken {
      StepExactly(written, Do(C.Deliver), agent);
      TakenFrame(written.net.sys, frame, agent, note);
    } else {
      StepExactly(written, Discard, agent);
      assert written.asked + [] == written.asked;
    }
  }

  /** What taking in a frame makes the client hold, and ask. */
  lemma TakenFrame(s: S.System, frame: Message, agent: AgentId, note: Note)
    requires S.Inv(s) && IsNumbered(frame) && frame in s.sent && frame.agent == agent
    requires NotesOf(frame, agent) == [note]
    ensures var c := ChaserOf(s.client, agent);
            && ChaserOf(S.Next(s, S.Deliver(frame)).client, agent) == ChaseOne(c, note)
            && Resyncs(Receive(s.client, frame).1) ==
               if !c.asking && ChaseOne(c, note).asking then [agent] else []
  {
    ReceiveChases(s, frame, agent);
    ChaseSingle(ChaserOf(s.client, agent), note);
    HonestIsUsable(s, frame);
    NoOtherAsks(s.client, frame);
  }

  /** A frame is made, pushed and written; then it is taken in or thrown away. */
  function Carried(making: Action, terminal: TerminalSnapshot, taken: bool): seq<Action> {
    [making, Do(C.PushNext(terminal)), Do(C.Pop), if taken then Do(C.Deliver) else Discard]
  }

  lemma Carries(
    l: Loop, making: Action, agent: AgentId, n: u64, terminal: TerminalSnapshot, full: bool, taken: bool)
    requires Resting(l, agent, n, terminal) && n < MAX_U64
    requires making == Do(C.Draw(agent, full, terminal)) || (making == Answer(terminal) && l.asked == [agent] && full)
    ensures var end, c := After(l, Carried(making, terminal, taken)), ChaserOf(l.net.sys.client, agent);
            var next := ChaseOne(c, if full then FullNote(n + 1) else DiffNote(n, n + 1));
            && Resting(end, agent, n + 1, terminal)
            && ChaserOf(end.net.sys.client, agent) == (if taken then next else c)
            && end.asked == (if making.Answer? then [] else l.asked)
                            + (if taken && !c.asking && next.asking then [agent] else [])
  {
    var made := Next(l, making);
    var written := Next(Next(made, Do(C.PushNext(terminal))), Do(C.Pop));
    var frame := FrameIsMade(l, making, agent, n, terminal, full);
    FrameIsWritten(l, made, frame, agent, n + 1, terminal);
    FrameIsTaken(
      l, written, frame, agent, n + 1, terminal, if full then FullNote(n + 1) else DiffNote(n, n + 1), taken);
    AfterFour(l, making, Do(C.PushNext(terminal)), Do(C.Pop), if taken then Do(C.Deliver) else Discard);
  }

  /** Nothing is on its way in either direction, and yet the client waits for a full frame it needs. */
  ghost predicate Frozen(l: Loop, agent: AgentId, n: u64, terminal: TerminalSnapshot) {
    && Resting(l, agent, n, terminal) && l.asked == [] && agent in l.net.sys.client.pendingResync
    && Held(l.net.sys.client, agent).Some? && Held(l.net.sys.client, agent).value < n
  }

  /** No diff gets it out of that, nor makes it ask again. */
  lemma FrozenStays(l: Loop, agent: AgentId, n: u64, terminal: TerminalSnapshot, taken: bool)
    requires Frozen(l, agent, n, terminal) && n < MAX_U64
    ensures !Mended(l.net, agent)
    ensures Frozen(After(l, Carried(Do(C.Draw(agent, false, terminal)), terminal, taken)), agent, n + 1, terminal)
  {
    FrozenIsBehind(l, agent, n, terminal);
    FrozenCarries(l, agent, n, terminal, taken);
  }

  lemma FrozenIsBehind(l: Loop, agent: AgentId, n: u64, terminal: TerminalSnapshot)
    requires Frozen(l, agent, n, terminal)
    ensures !Mended(l.net, agent)
  {
    assert C.Pipeline(l.net) == [] && C.Drained(l.net.sys, []) == l.net.sys;
  }

  lemma FrozenCarries(l: Loop, agent: AgentId, n: u64, terminal: TerminalSnapshot, taken: bool)
    requires Frozen(l, agent, n, terminal) && n < MAX_U64
    ensures Frozen(After(l, Carried(Do(C.Draw(agent, false, terminal)), terminal, taken)), agent, n + 1, terminal)
  {
    Carries(l, Do(C.Draw(agent, false, terminal)), agent, n, terminal, false, taken);
  }

  /** A diff is lost, the next one makes the client ask, and the answer is lost as well. */
  function LosingTwo(agent: AgentId, terminal: TerminalSnapshot): seq<Action> {
    Carried(Do(C.Draw(agent, false, terminal)), terminal, false)
    + (Carried(Do(C.Draw(agent, false, terminal)), terminal, true) + Carried(Answer(terminal), terminal, false))
  }

  lemma {:induction false} AfterConcat(l: Loop, a: seq<Action>, b: seq<Action>)
    ensures After(l, a + b) == After(After(l, a), b)
    decreases |a|
  {
    if |a| == 0 {
      assert a + b == b;
    } else {
      assert (a + b)[1..] == a[1..] + b;
      AfterConcat(Next(l, a[0]), a[1..], b);
    }
  }

  /** A client that has missed a frame asks when the next diff comes. */
  lemma Asking(l: Loop, agent: AgentId, held: u64, n: u64, terminal: TerminalSnapshot)
    requires Resting(l, agent, n, terminal) && n < MAX_U64 && held < n && l.asked == []
    requires ChaserOf(l.net.sys.client, agent) == Chaser(Some(held), false)
    ensures var end := After(l, Carried(Do(C.Draw(agent, false, terminal)), terminal, true));
            && Resting(end, agent, n + 1, terminal) && end.asked == [agent]
            && ChaserOf(end.net.sys.client, agent) == Chaser(Some(held), true)
  {
    Carries(l, Do(C.Draw(agent, false, terminal)), agent, n, terminal, false, true);
  }

  /** That freezes the screen, whatever agent and screen it is, until some other full frame is made. */
  lemma AnswerMayBeLost(l: Loop, agent: AgentId, n: u64, terminal: TerminalSnapshot)
    requires Resting(l, agent, n, terminal) && n + 3 <= MAX_U64 && l.asked == []
    requires ChaserOf(l.net.sys.client, agent) == Chaser(Some(n), false)
    ensures Frozen(After(l, LosingTwo(agent, terminal)), agent, n + 3, terminal)
  {
    var diff := Do(C.Draw(agent, false, terminal));
    var first, second := Carried(diff, terminal, false), Carried(diff, terminal, true);
    var lost := After(l, first);
    var asking := After(lost, second);
    AfterConcat(l, first, second + Carried(Answer(terminal), terminal, false));
    AfterConcat(lost, second, Carried(Answer(terminal), terminal, false));
    Carries(l, diff, agent, n, terminal, false, false);
    Asking(lost, agent, n, n + 1, terminal);
    Carries(asking, Answer(terminal), agent, n + 2, terminal, true, false);
  }

  /** A new agent and its first frame. */
  function FirstSteps(agent: AgentId, terminal: TerminalSnapshot): seq<Action> {
    [Do(C.Spawn(agent)), Do(C.Attach)] + Carried(Do(C.Draw(agent, false, terminal)), terminal, true)
  }

  /** A new agent, and a client attached. */
  function Begun(agent: AgentId): Loop {
    Next(Next(START, Do(C.Spawn(agent))), Do(C.Attach))
  }

  lemma BegunIs(agent: AgentId)
    ensures var net := Begun(agent).net;
            && net.attached && net.unsent == [] && net.queue == [] && net.wire == [] && Begun(agent).asked == []
            && net.sys.book == F.BookState(map[agent := 0], map[]) && net.sys.client == EMPTY && Sane(net)
  {
    var spawned := Next(START, Do(C.Spawn(agent)));
    RunIsSane([START], [], 0);
    StepExactly(START, Do(C.Spawn(agent)), agent);
    StepExactly(spawned, Do(C.Attach), agent);
  }

  lemma FirstIsMade(agent: AgentId, terminal: TerminalSnapshot)
    requires Valid(terminal)
    ensures var made, frame := Next(Begun(agent), Do(C.Draw(agent, false, terminal))), TerminalFull(agent, 1, terminal);
            && made.net.unsent == [frame] && made.asked == []
            && OnItsWay(Begun(agent), made.net, frame, agent, 1, terminal)
  {
    BegunIs(agent);
    F.FrameLeadsToScreen(Begun(agent).net.sys.book, agent, false, terminal);
    DrawIs(Begun(agent).net, agent, false, terminal);
    StepExactly(Begun(agent), Do(C.Draw(agent, false, terminal)), agent);
  }

  lemma FirstStepsAre(agent: AgentId, terminal: TerminalSnapshot)
    ensures After(START, FirstSteps(agent, terminal)) ==
            After(Begun(agent), Carried(Do(C.Draw(agent, false, terminal)), terminal, true))
  {
    var a, b := Do(C.Spawn(agent)), Do(C.Attach);
    var rest := Carried(Do(C.Draw(agent, false, terminal)), terminal, true);
    assert [a, b] + rest == [a] + ([b] + rest);
    AfterFirst(START, a, [b] + rest);
    AfterFirst(Next(START, a), b, rest);
  }

  /** A run comes to rest with its first frame taken in, so both can happen. */
  lemma FirstFrameRests(agent: AgentId, terminal: TerminalSnapshot)
    requires Valid(terminal)
    ensures var l := After(START, FirstSteps(agent, terminal));
            && Resting(l, agent, 1, terminal) && l.asked == []
            && ChaserOf(l.net.sys.client, agent) == Chaser(Some(1), false)
  {
    var l, draw := Begun(agent), Do(C.Draw(agent, false, terminal));
    var made, frame := Next(l, draw), TerminalFull(agent, 1, terminal);
    var written := Next(Next(made, Do(C.PushNext(terminal))), Do(C.Pop));
    BegunIs(agent);
    FirstIsMade(agent, terminal);
    FrameIsWritten(l, made, frame, agent, 1, terminal);
    FrameIsTaken(l, written, frame, agent, 1, terminal, FullNote(1), true);
    FirstStepsAre(agent, terminal);
    AfterFour(l, draw, Do(C.PushNext(terminal)), Do(C.Pop), Do(C.Deliver));
  }
}
