/**
 What the server sends a client about its agents' screens. Everything the terminal pipeline does not
 look into is `Other`; the two events that make a client drop an agent's screen are `AgentGone`.
 */
module Frames {
  import opened Basics
  import opened TerminalModel

  type AgentId = nat

  datatype Message =
    | TerminalFull(agent: AgentId, sequence: u64, snapshot: TerminalSnapshot)
    | TerminalDiff(agent: AgentId, base: u64, sequence: u64, diff: SnapshotDiff)
    | TerminalViewport(agent: AgentId, requested: nat, scrollback: nat, snapshot: TerminalSnapshot)
    | AgentGone(agent: AgentId)
    | Other(tag: nat)

  /** A numbered frame: a full screen or a diff. */
  predicate IsNumbered(m: Message) {
    m.TerminalFull? || m.TerminalDiff?
  }

  /** The number of an agent's next frame: numbers count up from one and never wrap. */
  function NextNumber(last: u64): Option<u64> {
    if last == MAX_U64 then None else Some(last + 1)
  }

  datatype FrameDisposition = Applied | Duplicate | Gap

  /** The last sequence number a client has applied, if any. */
  datatype TerminalFrameTracker = TerminalFrameTracker(sequence: Option<u64>) {
    function AcceptFull(next: u64): (TerminalFrameTracker, FrameDisposition) {
      if sequence.Some? && next <= sequence.value then (this, Duplicate)
      else (TerminalFrameTracker(Some(next)), Applied)
    }

    function AcceptDiff(base: u64, next: u64): (TerminalFrameTracker, FrameDisposition) {
      if sequence.None? then (this, Gap)
      else if next <= sequence.value then (this, Duplicate)
      else if base != sequence.value then (this, Gap)
      else (TerminalFrameTracker(Some(next)), Applied)
    }

    function Reset(): TerminalFrameTracker {
      TerminalFrameTracker(None)
    }
  }

  const UNTRACKED := TerminalFrameTracker(None)
}
