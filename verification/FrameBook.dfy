/**
 The server's side of one session's screens: how it numbers frames, what the next diff is taken
 against, and what the client has acknowledged.
 */
module FrameBook {
  import opened Basics
  import opened TerminalModel
  import opened Frames

  /** The last frame made for an agent. */
  datatype FrameBasis = FrameBasis(sequence: u64, acknowledged: Option<u64>, snapshot: TerminalSnapshot)

  /** `sequences` has an entry for every agent of the session: the number of its last frame. */
  datatype BookState = BookState(sequences: map<AgentId, u64>, bases: map<AgentId, FrameBasis>)

  datatype AckError = AgentNotFound | NewerThanLastFrame

  function Without(bases: map<AgentId, FrameBasis>, agent: AgentId): map<AgentId, FrameBasis> {
    bases - {agent}
  }

  /**
   The next frame of an agent whose screen is now `terminal`: a diff against the last frame, or a full
   frame when there is no last frame, the size has changed, or `forceFull` is set.
   */
  function NextFrame(b: BookState, agent: AgentId, forceFull: bool, terminal: TerminalSnapshot)
      : (BookState, Option<Message>)
  {
    if agent !in b.sequences then (b, None)
    else
      var last := if agent in b.bases then Some(b.bases[agent]) else None;
      var bases := Without(b.bases, agent);
      var number := NextNumber(b.sequences[agent]);
      if number.None? then (b.(bases := bases), None)
      else
        var n := number.value;
        var diff := if last.Some? && !forceFull then Diff(last.value.snapshot, terminal) else None;
        var frame :=
          if diff.Some? then TerminalDiff(agent, last.value.sequence, n, diff.value)
          else TerminalFull(agent, n, terminal);
        var acknowledged := if last.Some? then last.value.acknowledged else None;
        (BookState(b.sequences[agent := n], bases[agent := FrameBasis(n, acknowledged, terminal)]), Some(frame))
  }

  function Acknowledged(b: BookState, agent: AgentId, sequence: u64): (BookState, Result<(), AckError>) {
    if agent !in b.bases then (b, Err(AgentNotFound))
    else
      var basis := b.bases[agent];
      if sequence > basis.sequence then (b, Err(NewerThanLastFrame))
      else if basis.acknowledged.None? || sequence > basis.acknowledged.value then
        (b.(bases := b.bases[agent := basis.(acknowledged := Some(sequence))]), Ok(()))
      else (b, Ok(()))
  }

  class Book {
    var sequences: map<AgentId, u64>
    var bases: map<AgentId, FrameBasis>

    function State(): BookState
      reads this
    {
      BookState(sequences, bases)
    }

    constructor ()
      ensures State() == BookState(map[], map[])
    {
      sequences, bases := map[], map[];
    }

    /** `next_terminal_sequence`: the numbers of an agent count up from one and never wrap. */
    method NextSequence(agent: AgentId) returns (n: Option<u64>)
      requires agent in sequences
      modifies this`sequences
      ensures n == NextNumber(old(sequences)[agent])
      ensures sequences == if n.Some? then old(sequences)[agent := n.value] else old(sequences)
    {
      if sequences[agent] == MAX_U64 {
        return None;
      }
      sequences := sequences[agent := sequences[agent] + 1];
      n := Some(sequences[agent]);
    }

    method TerminalEvent(agent: AgentId, forceFull: bool, terminal: TerminalSnapshot) returns (event: Option<Message>)
      modifies this
      ensures (State(), event) == NextFrame(old(State()), agent, forceFull, terminal)
    {
      if agent !in sequences {
        return None;
      }
      var last := None;
      if agent in bases {
        last := Some(bases[agent]);
        bases := bases - {agent};
      } else {
        assert Without(bases, agent) == bases;
      }
      var diff := None;
      if last.Some? && !forceFull {
        diff := Diff(last.value.snapshot, terminal);
      }
      var acknowledged := if last.Some? then last.value.acknowledged else None;
      var sequence := NextSequence(agent);
      if sequence.None? {
        return None;
      }
      event := Some(
        if diff.Some? then TerminalDiff(agent, last.value.sequence, sequence.value, diff.value)
        else TerminalFull(agent, sequence.value, terminal));
      bases := bases[agent := FrameBasis(sequence.value, acknowledged, terminal)];
    }

    method Acknowledge(agent: AgentId, sequence: u64) returns (r: Result<(), AckError>)
      modifies this`bases
      ensures (State(), r) == Acknowledged(old(State()), agent, sequence)
    {
      if agent !in bases {
        return Err(AgentNotFound);
      }
      var basis := bases[agent];
      if sequence > basis.sequence {
        return Err(NewerThanLastFrame);
      }
      if basis.acknowledged.None? || sequence > basis.acknowledged.value {
        bases := bases[agent := basis.(acknowledged := Some(sequence))];
      }
      r := Ok(());
    }

    method ClearBases()
      modifies this`bases
      ensures State() == old(State()).(bases := map[])
    {
      bases := map[];
    }

    method Register(agent: AgentId)
      modifies this`sequences
      ensures State() == old(State()).(sequences := old(sequences)[agent := 0])
    {
      sequences := sequences[agent := 0];
    }

    method Remove(agent: AgentId)
      modifies this
      ensures State() == BookState(old(sequences) - {agent}, old(bases) - {agent})
    {
      sequences := sequences - {agent};
      bases := bases - {agent};
    }
  }

  // ---------------------------------------------------------------------------------------------
  // What a book keeps
  // ---------------------------------------------------------------------------------------------

  /** Bases belong to agents, carry the agent's last number, and nothing newer than that is acknowledged. */
  ghost predicate Consistent(b: BookState) {
    && b.bases.Keys <= b.sequences.Keys
    && forall agent | agent in b.bases ::
         && Valid(b.bases[agent].snapshot)
         && b.bases[agent].sequence == b.sequences[agent]
         && (b.bases[agent].acknowledged.Some? ==> b.bases[agent].acknowledged.value <= b.bases[agent].sequence)
  }

  lemma NextFrameKeepsConsistent(b: BookState, agent: AgentId, forceFull: bool, terminal: TerminalSnapshot)
    requires Consistent(b) && Valid(terminal)
    ensures Consistent(NextFrame(b, agent, forceFull, terminal).0)
  {
  }

  /**
   A frame brings a client from the last frame to the screen drawn now: a diff, made exactly when there is
   a last frame of the same size and no full frame is forced, leads from the one to the other; a full frame
   is the screen itself. Its number is the agent's next.
   */
  lemma FrameLeadsToScreen(b: BookState, agent: AgentId, forceFull: bool, terminal: TerminalSnapshot)
    requires Consistent(b) && Valid(terminal)
    ensures var frame := NextFrame(b, agent, forceFull, terminal).1;
            && (frame.Some? <==> agent in b.sequences && b.sequences[agent] < MAX_U64)
            && (frame.Some? ==>
               IsNumbered(frame.value) && frame.value.agent == agent && frame.value.sequence == b.sequences[agent] + 1)
            && (frame.Some? ==>
                  (frame.value.TerminalDiff? <==>
                   !forceFull && agent in b.bases && b.bases[agent].snapshot.state.size == terminal.state.size))
            && (frame.Some? && frame.value.TerminalDiff? ==>
                  frame.value.base == b.bases[agent].sequence
                    && Apply(b.bases[agent].snapshot, frame.value.diff) == Ok(terminal))
            && (frame.Some? && frame.value.TerminalFull? ==> frame.value.snapshot == terminal)
    ensures var (book, frame) := NextFrame(b, agent, forceFull, terminal);
            frame.Some? ==>
              && agent in book.bases && book.bases[agent].snapshot == terminal
              && (agent in b.bases ==> book.bases[agent].acknowledged == b.bases[agent].acknowledged)
              && (agent !in b.bases ==> book.bases[agent].acknowledged == None)
  {
    if agent in b.bases {
      DiffRebuilds(b.bases[agent].snapshot, terminal);
    }
  }

  /**
   Acknowledging keeps the book consistent; a number already given out is never refused, and the record never
   goes back.
   */
  lemma AcknowledgeIsMonotone(b: BookState, agent: AgentId, sequence: u64)
    requires Consistent(b)
    ensures Consistent(Acknowledged(b, agent, sequence).0)
    ensures agent in b.bases ==>
              && (Acknowledged(b, agent, sequence).1 == Ok(()) <==> sequence <= b.sequences[agent])
              && (Acknowledged(b, agent, sequence).1 == Ok(()) ==>
                    var after := Acknowledged(b, agent, sequence).0.bases[agent].acknowledged;
                    var before := b.bases[agent].acknowledged;
                    && after.Some? && sequence <= after.value && (after == Some(sequence) || after == before)
                    && (before.Some? ==> before.value <= after.value))
  {
  }
}
