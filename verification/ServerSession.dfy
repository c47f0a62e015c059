/**
 One session as the server keeps it: who holds it, which agent is selected, what each agent's client has
 seen, and a revision that grows with every change.
 */
module ServerSession {
  import opened Basics
  import opened Frames

  type ConnectionId = u64
  type SessionId = u64

  /** A lease token is told apart by the server's counter it was made from. */
  type LeaseToken = u64

  datatype AttachmentLease = AttachmentLease(
    connection: ConnectionId, process: Option<u32>, token: LeaseToken, attachedAt: u64, lastActivity: u64)

  datatype AgentState = AgentState(seen: u64, sequence: u64)

  datatype SessionState = SessionState(
    id: SessionId,
    selected: Option<AgentId>,
    agents: map<AgentId, AgentState>,
    rows: u16,
    cols: u16,
    attachment: Option<AttachmentLease>,
    lastActivity: u64,
    revision: u64,
    stopped: bool)

  datatype SessionError =
    | InvalidDimensions
    | AlreadyAttached(holder: ConnectionId)
    | InvalidLease
    | Stopped
    | AgentNotFound
    | SequenceExhausted

  // ---------------------------------------------------------------------------------------------
  // Operations
  // ---------------------------------------------------------------------------------------------

  function ValidateDimensions(rows: u16, cols: u16): Result<(), SessionError> {
    if rows == 0 || cols == 0 then Err(InvalidDimensions) else Ok(())
  }

  function New(id: SessionId, rows: u16, cols: u16, now: u64): Result<SessionState, SessionError> {
    if ValidateDimensions(rows, cols).Err? then Err(InvalidDimensions)
    else Ok(SessionState(id, None, map[], rows, cols, None, now, 0, false))
  }

  function Bumped(s: SessionState): SessionState {
    s.(revision := if s.revision < MAX_U64 then s.revision + 1 else MAX_U64)
  }

  function Touched(s: SessionState, now: u64): SessionState {
    Bumped(s.(lastActivity := now,
              attachment := if s.attachment.Some? then Some(s.attachment.value.(lastActivity := now)) else None))
  }

  /** The holder that an attachment would revoke. */
  function ValidateAttach(s: SessionState, takeover: bool): Result<Option<ConnectionId>, SessionError> {
    if s.stopped then Err(Stopped)
    else if s.attachment.Some? && !takeover then Err(AlreadyAttached(s.attachment.value.connection))
    else Ok(Holder(s))
  }

  function Holder(s: SessionState): Option<ConnectionId> {
    if s.attachment.Some? then Some(s.attachment.value.connection) else None
  }

  function Attach(
    s: SessionState, connection: ConnectionId, process: Option<u32>, token: LeaseToken, takeover: bool, now: u64)
    : (SessionState, Result<Option<ConnectionId>, SessionError>)
  {
    var valid := ValidateAttach(s, takeover);
    if valid.Err? then (s, valid)
    else (Touched(s.(attachment := Some(AttachmentLease(connection, process, token, now, now))), now), valid)
  }

  function ValidateLease(s: SessionState, token: LeaseToken): Result<(), SessionError> {
    if s.stopped then Err(Stopped)
    else if s.attachment.Some? && s.attachment.value.token == token then Ok(())
    else Err(InvalidLease)
  }

  function Detach(s: SessionState, token: LeaseToken, now: u64): (SessionState, Result<(), SessionError>) {
    if ValidateLease(s, token).Err? then (s, ValidateLease(s, token))
    else (Touched(s.(attachment := None), now), Ok(()))
  }

  /** Only the holder's own disconnection ends the lease. */
  function Disconnect(s: SessionState, connection: ConnectionId, now: u64): (SessionState, bool) {
    if Holder(s) != Some(connection) then (s, false)
    else (Touched(s.(attachment := None), now), true)
  }

  function RegisterAgent(s: SessionState, id: AgentId, generation: u64, now: u64): SessionState {
    Touched(s.(agents := s.agents[id := AgentState(generation, 0)], selected := Some(id)), now)
  }

  function Last(order: seq<AgentId>): Option<AgentId> {
    if |order| == 0 then None else Some(order[|order| - 1])
  }

  function RemoveAgent(s: SessionState, id: AgentId, remaining: seq<AgentId>, now: u64): SessionState {
    var selected := if s.selected == Some(id) then Last(remaining) else s.selected;
    Touched(s.(agents := s.agents - {id}, selected := selected), now)
  }

  function SelectAgent(s: SessionState, id: AgentId, now: u64): (SessionState, Result<(), SessionError>) {
    if id !in s.agents then (s, Err(AgentNotFound)) else (Touched(s.(selected := Some(id)), now), Ok(()))
  }

  function Max(a: u64, b: u64): u64 {
    if a < b then b else a
  }

  function Min(a: u64, b: u64): u64 {
    if a < b then a else b
  }

  function MarkSeen(s: SessionState, id: AgentId, generation: u64, current: u64)
      : (SessionState, Result<(), SessionError>)
  {
    if id !in s.agents then (s, Err(AgentNotFound))
    else
      var agent := s.agents[id];
      (Bumped(s.(agents := s.agents[id := agent.(seen := Max(agent.seen, Min(generation, current)))])), Ok(()))
  }

  function Resize(s: SessionState, rows: u16, cols: u16, now: u64): (SessionState, Result<(), SessionError>) {
    if ValidateDimensions(rows, cols).Err? then (s, ValidateDimensions(rows, cols))
    else (Touched(s.(rows := rows, cols := cols), now), Ok(()))
  }

  function NextSequence(s: SessionState, id: AgentId): (SessionState, Result<u64, SessionError>) {
    if id !in s.agents then (s, Err(AgentNotFound))
    else
      var n := NextNumber(s.agents[id].sequence);
      if n.None? then (s, Err(SequenceExhausted))
      else (s.(agents := s.agents[id := s.agents[id].(sequence := n.value)]), Ok(n.value))
  }

  function Stop(s: SessionState): SessionState {
    Bumped(s.(stopped := true, attachment := None))
  }

  class ServerSessionState {
    const id: SessionId
    var selected: Option<AgentId>
    var agents: map<AgentId, AgentState>
    var rows: u16
    var cols: u16
    var attachment: Option<AttachmentLease>
    var lastActivity: u64
    var revision: u64
    var stopped: bool

    function State(): SessionState
      reads this
    {
      SessionState(id, selected, agents, rows, cols, attachment, lastActivity, revision, stopped)
    }

    constructor (id: SessionId, rows: u16, cols: u16, now: u64)
      requires ValidateDimensions(rows, cols).Ok?
      ensures New(id, rows, cols, now) == Ok(State())
    {
      this.id, this.rows, this.cols, lastActivity := id, rows, cols, now;
      selected, agents, attachment, revision, stopped := None, map[], None, 0, false;
    }

    method BumpRevision()
      modifies this`revision
      ensures State() == Bumped(old(State()))
    {
      if revision < MAX_U64 {
        revision := revision + 1;
      }
    }

    method Touch(now: u64)
      modifies this
      ensures State() == Touched(old(State()), now)
    {
      lastActivity := now;
      if attachment.Some? {
        attachment := Some(attachment.value.(lastActivity := now));
      }
      BumpRevision();
    }

    method AttachTo(connection: ConnectionId, process: Option<u32>, token: LeaseToken, takeover: bool, now: u64)
      returns (r: Result<Option<ConnectionId>, SessionError>)
      modifies this
      ensures (State(), r) == Attach(old(State()), connection, process, token, takeover, now)
    {
      r := ValidateAttach(State(), takeover);
      if r.Err? {
        return;
      }
      attachment := Some(AttachmentLease(connection, process, token, now, now));
      Touch(now);
    }

    method DetachBy(token: LeaseToken, now: u64) returns (r: Result<(), SessionError>)
      modifies this
      ensures (State(), r) == Detach(old(State()), token, now)
    {
      r := ValidateLease(State(), token);
      if r.Err? {
        return;
      }
      attachment := None;
      Touch(now);
    }

    method DisconnectFrom(connection: ConnectionId, now: u64) returns (held: bool)
      modifies this
      ensures (State(), held) == Disconnect(old(State()), connection, now)
    {
      if attachment.None? || attachment.value.connection != connection {
        return false;
      }
      attachment := None;
      Touch(now);
      held := true;
    }

    method Register(agent: AgentId, generation: u64, now: u64)
      modifies this
      ensures State() == RegisterAgent(old(State()), agent, generation, now)
    {
      agents := agents[agent := AgentState(generation, 0)];
      selected := Some(agent);
      Touch(now);
    }

    method Remove(agent: AgentId, remaining: seq<AgentId>, now: u64)
      modifies this
      ensures State() == RemoveAgent(old(State()), agent, remaining, now)
    {
      agents := agents - {agent};
      if selected == Some(agent) {
        selected := Last(remaining);
      }
      Touch(now);
    }

    method Select(agent: AgentId, now: u64) returns (r: Result<(), SessionError>)
      modifies this
      ensures (State(), r) == SelectAgent(old(State()), agent, now)
    {
      if agent !in agents {
        return Err(AgentNotFound);
      }
      selected := Some(agent);
      Touch(now);
      r := Ok(());
    }

    method Saw(agent: AgentId, generation: u64, current: u64) returns (r: Result<(), SessionError>)
      modifies this
      ensures (State(), r) == MarkSeen(old(State()), agent, generation, current)
    {
      if agent !in agents {
        return Err(AgentNotFound);
      }
      agents := agents[agent := agents[agent].(seen := Max(agents[agent].seen, Min(generation, current)))];
      BumpRevision();
      r := Ok(());
    }

    method ResizeTo(newRows: u16, newCols: u16, now: u64) returns (r: Result<(), SessionError>)
      modifies this
      ensures (State(), r) == Resize(old(State()), newRows, newCols, now)
    {
      r := ValidateDimensions(newRows, newCols);
      if r.Err? {
        return;
      }
      rows, cols := newRows, newCols;
      Touch(now);
    }

    method NextTerminalSequence(agent: AgentId) returns (r: Result<u64, SessionError>)
      modifies this`agents
      ensures (State(), r) == NextSequence(old(State()), agent)
    {
      if agent !in agents {
        return Err(AgentNotFound);
      }
      if agents[agent].sequence == MAX_U64 {
        return Err(SequenceExhausted);
      }
      agents := agents[agent := agents[agent].(sequence := agents[agent].sequence + 1)];
      r := Ok(agents[agent].sequence);
    }

    method Halt()
      modifies this
      ensures State() == Stop(old(State()))
    {
      stopped := true;
      attachment := None;
      BumpRevision();
    }
  }

  // ---------------------------------------------------------------------------------------------
  // What a session keeps
  // ---------------------------------------------------------------------------------------------

  datatype Operation =
    | AttachOp(connection: ConnectionId, process: Option<u32>, token: LeaseToken, takeover: bool, now: u64)
    | DetachOp(token: LeaseToken, now: u64)
    | DisconnectOp(connection: ConnectionId, now: u64)
    | RegisterOp(id: AgentId, generation: u64, now: u64)
    | RemoveOp(id: AgentId, remaining: seq<AgentId>, now: u64)
    | SelectOp(id: AgentId, now: u64)
    | MarkSeenOp(id: AgentId, generation: u64, current: u64)
    | ResizeOp(rows: u16, cols: u16, now: u64)
    | SequenceOp(id: AgentId)
    | StopOp

  function Apply(s: SessionState, op: Operation): SessionState {
    match op
    case AttachOp(connection, process, token, takeover, now) => Attach(s, connection, process, token, takeover, now).0
    case DetachOp(token, now) => Detach(s, token, now).0
    case DisconnectOp(connection, now) => Disconnect(s, connection, now).0
    case RegisterOp(id, generation, now) => RegisterAgent(s, id, generation, now)
    case RemoveOp(id, remaining, now) => RemoveAgent(s, id, remaining, now)
    case SelectOp(id, now) => SelectAgent(s, id, now).0
    case MarkSeenOp(id, generation, current) => MarkSeen(s, id, generation, current).0
    case ResizeOp(rows, cols, now) => Resize(s, rows, cols, now).0
    case SequenceOp(id) => NextSequence(s, id).0
    case StopOp => Stop(s)
  }

  /** Whether a token opens the session. */
  predicate Opens(s: SessionState, token: LeaseToken) {
    ValidateLease(s, token).Ok?
  }

  ghost predicate Sane(s: SessionState) {
    && s.rows > 0 && s.cols > 0
    && (s.stopped ==> s.attachment.None?)
  }

  /**
   Dimensions stay nonzero and a stopped session has no holder. A token opens the session only if it did
   before or is the one a successful attachment has just brought, and a session has one token at most. What
   an agent has seen, its frame number and the revision never go back while the agent is there.
   */
  lemma OperationKeepsSane(s: SessionState, op: Operation)
    requires Sane(s)
    ensures Sane(Apply(s, op))
    ensures forall token :: Opens(Apply(s, op), token) ==> Opens(s, token) || (op.AttachOp? && op.token == token)
    ensures forall a, b :: Opens(Apply(s, op), a) && Opens(Apply(s, op), b) ==> a == b
    ensures s.stopped ==> Apply(s, op).stopped
    ensures s.revision <= Apply(s, op).revision
    ensures forall id | id in s.agents && id in Apply(s, op).agents && !op.RegisterOp? ::
              s.agents[id].seen <= Apply(s, op).agents[id].seen
                && s.agents[id].sequence <= Apply(s, op).agents[id].sequence
  {
  }

  predicate Refused(s: SessionState, op: Operation) {
    match op
    case AttachOp(connection, process, token, takeover, now) =>
      Attach(s, connection, process, token, takeover, now).1.Err?
    case DetachOp(token, now) => Detach(s, token, now).1.Err?
    case DisconnectOp(connection, now) => !Disconnect(s, connection, now).1
    case SelectOp(id, now) => SelectAgent(s, id, now).1.Err?
    case MarkSeenOp(id, generation, current) => MarkSeen(s, id, generation, current).1.Err?
    case ResizeOp(rows, cols, now) => Resize(s, rows, cols, now).1.Err?
    case SequenceOp(id) => NextSequence(s, id).1.Err?
    case RegisterOp(_, _, _) => false
    case RemoveOp(_, _, _) => false
    case StopOp => false
  }

  /** Anything refused changes nothing. */
  lemma RefusalChangesNothing(s: SessionState, op: Operation)
    ensures Refused(s, op) ==> Apply(s, op) == s
  {
  }

  // ---------------------------------------------------------------------------------------------
  // Whole runs
  // ---------------------------------------------------------------------------------------------

  function After(s: SessionState, ops: seq<Operation>): SessionState {
    if |ops| == 0 then s else Apply(After(s, ops[..|ops| - 1]), ops[|ops| - 1])
  }

  /** The operations that are not refused. */
  function Accepted(s: SessionState, ops: seq<Operation>): seq<Operation> {
    if |ops| == 0 then []
    else
      var before, op := ops[..|ops| - 1], ops[|ops| - 1];
      Accepted(s, before) + if Refused(After(s, before), op) then [] else [op]
  }

  lemma OneMore(s: SessionState, ops: seq<Operation>, op: Operation)
    ensures After(s, ops + [op]) == Apply(After(s, ops), op)
    ensures Accepted(s, ops + [op]) == Accepted(s, ops) + if Refused(After(s, ops), op) then [] else [op]
  {
    assert (ops + [op])[..|ops|] == ops;
  }

  /** A session is what its accepted operations made of it. */
  lemma {:induction false} RefusalsLeaveNoTrace(s: SessionState, ops: seq<Operation>)
    ensures After(s, ops) == After(s, Accepted(s, ops)) && Accepted(s, Accepted(s, ops)) == Accepted(s, ops)
  {
    if |ops| > 0 {
      var before, op := ops[..|ops| - 1], ops[|ops| - 1];
      assert before + [op] == ops;
      OneMore(s, before, op);
      RefusalsLeaveNoTrace(s, before);
      var accepted := Accepted(s, before);
      if Refused(After(s, before), op) {
        RefusalChangesNothing(After(s, before), op);
        assert accepted + [] == accepted;
      } else {
        OneMore(s, accepted, op);
      }
    }
  }

  ghost predicate IsRun(states: seq<SessionState>, ops: seq<Operation>) {
    && |states| == |ops| + 1
    && forall i | 0 <= i < |ops| :: states[i + 1] == Apply(states[i], ops[i])
  }

  function Capped(n: nat): u64 {
    if n <= MAX_U64 then n else MAX_U64
  }

  /** When the user was last active in a run: the time of its last accepted operation that tells one. */
  function LastActive(states: seq<SessionState>, ops: seq<Operation>, n: nat): u64
    requires n <= |ops| < |states|
  {
    if n == 0 then states[0].lastActivity
    else
      match ops[n - 1]
      case MarkSeenOp(_, _, _) => LastActive(states, ops, n - 1)
      case SequenceOp(_) => LastActive(states, ops, n - 1)
      case StopOp => LastActive(states, ops, n - 1)
      case _ => if Refused(states[n - 1], ops[n - 1]) then LastActive(states, ops, n - 1) else ops[n - 1].now
  }

  lemma ActivityStep(s: SessionState, op: Operation)
    ensures Apply(s, op).lastActivity ==
            if Refused(s, op) || op.MarkSeenOp? || op.SequenceOp? || op.StopOp? then s.lastActivity else op.now
    ensures Apply(s, op).selected ==
            if op.RegisterOp? || (op.SelectOp? && !Refused(s, op)) then Some(op.id)
            else if op.RemoveOp? && s.selected == Some(op.id) then Last(op.remaining)
            else s.selected
  {
  }

  /** That is what a session records, and it has selected whoever was selected or registered last, until removed. */
  lemma {:induction false} ActivityIsLatest(
    states: seq<SessionState>, ops: seq<Operation>, k: nat, n: nat, id: AgentId)
    requires IsRun(states, ops) && k < n <= |ops|
    ensures states[n].lastActivity == LastActive(states, ops, n)
    ensures (ops[k].RegisterOp? || ops[k].SelectOp?) && ops[k].id == id
            && !Refused(states[k], ops[k])
            && (forall i | k < i < n :: !ops[i].RegisterOp? && !ops[i].SelectOp? && !ops[i].RemoveOp?) ==>
              states[n].selected == Some(id)
    decreases n
  {
    ActivityStep(states[n - 1], ops[n - 1]);
    if k < n - 1 {
      ActivityIsLatest(states, ops, k, n - 1, id);
    } else if n > 1 {
      ActivityIsLatest(states, ops, 0, n - 1, id);
    }
  }

  /** How many operations of a run were accepted, not counting those for a frame number. */
  function Changes(states: seq<SessionState>, ops: seq<Operation>, n: nat): nat
    requires n <= |ops| < |states|
  {
    if n == 0 then 0
    else Changes(states, ops, n - 1) + Counted(states[n - 1], ops[n - 1])
  }

  function Counted(s: SessionState, op: Operation): nat {
    if Refused(s, op) || op.SequenceOp? then 0 else 1
  }

  lemma RevisionStep(s: SessionState, op: Operation)
    ensures Apply(s, op).revision == Capped(s.revision + Counted(s, op))
  {
  }

  /** The revision counts those operations, until it can grow no more. */
  lemma {:induction false} RevisionCounts(states: seq<SessionState>, ops: seq<Operation>, n: nat)
    requires IsRun(states, ops) && n <= |ops|
    ensures states[n].revision == Capped(states[0].revision + Changes(states, ops, n))
  {
    if n > 0 {
      RevisionCounts(states, ops, n - 1);
      RevisionStep(states[n - 1], ops[n - 1]);
    }
  }

  /** An operation after which the token of the lease so far opens the session no more, unless it is given anew. */
  predicate Ends(s: SessionState, op: Operation) {
    !Refused(s, op) && (op.AttachOp? || op.DetachOp? || op.DisconnectOp? || op.StopOp?)
  }

  lemma TokenStep(s: SessionState, op: Operation, token: LeaseToken)
    requires Sane(s)
    ensures Opens(Apply(s, op), token) <==>
            if Ends(s, op) then op.AttachOp? && op.token == token else Opens(s, token)
  {
  }

  ghost predicate HeldSince(states: seq<SessionState>, ops: seq<Operation>, i: nat, n: nat, token: LeaseToken)
    requires i < n <= |ops| < |states|
  {
    && ops[i].AttachOp? && ops[i].token == token && !Refused(states[i], ops[i])
    && forall j | i < j < n :: !Ends(states[j], ops[j])
  }

  /**
   In any run, a token that did not open the session at first opens it exactly if an attachment has
   brought it and nothing since has ended a lease: no detachment, no disconnection of the holder, no other
   attachment and no stop.
   */
  lemma {:induction false} OpenedByItsLease(states: seq<SessionState>, ops: seq<Operation>, n: nat, token: LeaseToken)
    requires IsRun(states, ops) && n <= |ops| && Sane(states[0]) && !Opens(states[0], token)
    ensures Sane(states[n])
    ensures Opens(states[n], token) <==> exists i | 0 <= i < n :: HeldSince(states, ops, i, n, token)
  {
    if n > 0 {
      var last := n - 1;
      OpenedByItsLease(states, ops, last, token);
      OperationKeepsSane(states[last], ops[last]);
      TokenStep(states[last], ops[last], token);
      if Ends(states[last], ops[last]) {
        if ops[last].AttachOp? && ops[last].token == token {
          assert HeldSince(states, ops, last, n, token);
        }
      } else if Opens(states[last], token) {
        var i :| 0 <= i < last && HeldSince(states, ops, i, last, token);
        assert HeldSince(states, ops, i, n, token);
      } else if exists i | 0 <= i < n :: HeldSince(states, ops, i, n, token) {
        var i :| 0 <= i < n && HeldSince(states, ops, i, n, token);
        assert HeldSince(states, ops, i, last, token);
      }
    }
  }

  /** What a mark asks for, as far as there is output. */
  function Marked(op: Operation, id: AgentId): Option<u64> {
    if op.MarkSeenOp? && op.id == id then Some(Min(op.generation, op.current)) else None
  }

  /** The agent is registered at `k` and stays until `n`. */
  ghost predicate StaysFrom(ops: seq<Operation>, k: nat, n: nat, id: AgentId)
    requires k < n <= |ops|
  {
    && ops[k].RegisterOp? && ops[k].id == id
    && forall i | k < i < n :: !(ops[i].RegisterOp? && ops[i].id == id) && !(ops[i].RemoveOp? && ops[i].id == id)
  }

  /** What an agent has been marked seen up to is the highest mark since it was registered, and no more. */
  lemma {:induction false} SeenIsHighestMark(
    states: seq<SessionState>, ops: seq<Operation>, k: nat, n: nat, id: AgentId)
    requires IsRun(states, ops) && k < n <= |ops| && StaysFrom(ops, k, n, id)
    ensures id in states[n].agents
    ensures var seen := states[n].agents[id].seen;
            && seen >= ops[k].generation
            && (forall i | k < i < n :: Marked(ops[i], id).Some? ==> seen >= Marked(ops[i], id).value)
            && (seen == ops[k].generation || exists i | k < i < n :: Marked(ops[i], id) == Some(seen))
    decreases n
  {
    var last := n - 1;
    if k < last {
      SeenIsHighestMark(states, ops, k, last, id);
      var was, op := states[last].agents[id].seen, ops[last];
      if op.MarkSeenOp? && op.id == id {
        assert states[n].agents[id].seen == Max(was, Marked(op, id).value);
      } else {
        assert states[n].agents[id].seen == was;
      }
    }
  }

  /** An agent is selected exactly when there is one, and it is one of them. */
  ghost predicate SelectionOk(s: SessionState) {
    && (s.selected.None? <==> s.agents.Keys == {})
    && (s.selected.Some? ==> s.selected.value in s.agents)
  }

  lemma RemovalKeepsSelection(s: SessionState, id: AgentId, remaining: seq<AgentId>, now: u64)
    requires SelectionOk(s) && id in s.agents
    requires forall other :: other in remaining <==> other in s.agents && other != id
    ensures SelectionOk(RemoveAgent(s, id, remaining, now))
  {
    assert s.selected.Some? && s.selected.value in s.agents;
    if |remaining| > 0 {
      var last := remaining[|remaining| - 1];
      assert last in remaining;
      assert last in (s.agents - {id}).Keys;
    } else {
      assert forall other | other in s.agents :: other == id;
      assert (s.agents - {id}).Keys == {};
    }
  }

  /** Every operation keeps that; a removal, provided the remaining order lists the remaining agents. */
  lemma OperationKeepsSelection(s: SessionState, op: Operation)
    requires SelectionOk(s)
    requires op.RemoveOp? ==> op.id in s.agents && forall id :: id in op.remaining <==> id in s.agents && id != op.id
    ensures SelectionOk(Apply(s, op))
  {
    match op {
      case RemoveOp(id, remaining, now) => RemovalKeepsSelection(s, id, remaining, now);
      case RegisterOp(id, generation, now) => assert id in RegisterAgent(s, id, generation, now).agents.Keys;
      case MarkSeenOp(id, generation, current) =>
        assert id in s.agents ==> MarkSeen(s, id, generation, current).0.agents.Keys == s.agents.Keys;
      case SequenceOp(id) => assert id in s.agents ==> NextSequence(s, id).0.agents.Keys == s.agents.Keys;
      case SelectOp(id, now) => assert id in s.agents ==> id in s.agents.Keys;
      case _ =>
    }
  }
}
