/**
 The agents of one session: their processes, the order they are shown in, and the identifiers handed
 out. What a process does is up to the world, and comes in as a parameter of each operation.
 */
module Agents {
  import opened Basics
  import opened Frames

  datatype Size = Size(rows: u16, cols: u16)

  datatype Process = Process(size: Size, exited: bool)

  datatype ManagerState = ManagerState(
    sessions: map<AgentId, Process>, order: seq<AgentId>, nextId: Option<u64>, size: Size)

  /** No terminal has a zero dimension. */
  function PtySize(rows: u16, cols: u16): Size {
    Size(if rows == 0 then 1 else rows, if cols == 0 then 1 else cols)
  }

  function Without(order: seq<AgentId>, agent: AgentId): seq<AgentId> {
    if |order| == 0 then []
    else if order[0] == agent then Without(order[1..], agent)
    else [order[0]] + Without(order[1..], agent)
  }

  /** The identifier for a new agent; the last one can be handed out once. */
  function Allocate(m: ManagerState): (ManagerState, Option<u64>) {
    if m.nextId.None? then (m, None)
    else (m.(nextId := if m.nextId.value < MAX_U64 then Some(m.nextId.value + 1) else None), m.nextId)
  }

  /** A new process; the identifier is spent even if it does not start. */
  function Spawn(m: ManagerState, starts: bool): (ManagerState, Option<AgentId>) {
    var (next, id) := Allocate(m);
    if id.None? || !starts then (next, None)
    else
      (next.(sessions := next.sessions[id.value := Process(next.size, false)], order := next.order + [id.value]),
       Some(id.value))
  }

  /** Stopping a process that has exited always succeeds; a running one may fail to die in time. */
  predicate Stops(process: Process, dies: bool) {
    process.exited || dies
  }

  function Close(m: ManagerState, id: AgentId, dies: bool): (ManagerState, bool) {
    if id !in m.sessions then (m, true)
    else if !Stops(m.sessions[id], dies) then (m, false)
    else (m.(sessions := m.sessions - {id}, order := Without(m.order, id)), true)
  }

  /** Every process is asked once whether it has exited. */
  function Poll(m: ManagerState, exits: set<AgentId>): ManagerState {
    m.(sessions := map id | id in m.sessions :: m.sessions[id].(exited := m.sessions[id].exited || id in exits))
  }

  /** Those of the agents in `order`, up to the first that fails. */
  function UpToFailure(order: seq<AgentId>, failing: set<AgentId>): seq<AgentId> {
    if |order| == 0 || order[0] in failing then [] else [order[0]] + UpToFailure(order[1..], failing)
  }

  function Members(ids: seq<AgentId>): set<AgentId> {
    set id | id in ids
  }

  function SetSizes(m: ManagerState, ids: set<AgentId>, size: Size): ManagerState {
    m.(sessions := map id | id in m.sessions :: if id in ids then m.sessions[id].(size := size) else m.sessions[id])
  }

  /** Resizes every terminal, or none: on failure those already resized are put back, as far as that succeeds. */
  function Resize(m: ManagerState, rows: u16, cols: u16, failing: set<AgentId>, failingBack: set<AgentId>)
      : (ManagerState, bool)
  {
    var size := PtySize(rows, cols);
    if size == m.size then (m, true)
    else
      var resized := UpToFailure(m.order, failing);
      var after := SetSizes(m, Members(resized), size);
      if |resized| == |m.order| then (after.(size := size), true)
      else (SetSizes(after, Members(resized) - failingBack, m.size), false)
  }

  lemma {:induction false} FailsAt(order: seq<AgentId>, i: nat, failing: set<AgentId>)
    requires i <= |order| && (i < |order| ==> order[i] in failing) && forall k | 0 <= k < i :: order[k] !in failing
    ensures UpToFailure(order, failing) == order[..i]
  {
    if i > 0 {
      FailsAt(order[1..], i - 1, failing);
      assert [order[0]] + order[1..][..i - 1] == order[..i];
    }
  }

  lemma SizesAreSet(m: ManagerState, sessions: map<AgentId, Process>, ids: set<AgentId>, size: Size)
    requires sessions.Keys == m.sessions.Keys
    requires forall id | id in sessions ::
             sessions[id] == if id in ids then m.sessions[id].(size := size) else m.sessions[id]
    ensures m.(sessions := sessions) == SetSizes(m, ids, size)
  {
  }

  class AgentManager {
    var sessions: map<AgentId, Process>
    var order: seq<AgentId>
    var nextId: Option<u64>
    var size: Size

    function State(): ManagerState
      reads this
    {
      ManagerState(sessions, order, nextId, size)
    }

    constructor (size: Size)
      ensures State() == ManagerState(map[], [], Some(1), size)
    {
      this.sessions, this.order, this.nextId, this.size := map[], [], Some(1), size;
    }

    method AllocateId() returns (id: Option<u64>)
      modifies this`nextId
      ensures (State(), id) == Allocate(old(State()))
    {
      id := nextId;
      nextId := None;
      if id.Some? && id.value < MAX_U64 {
        nextId := Some(id.value + 1);
      }
    }

    method Start(starts: bool) returns (id: Option<AgentId>)
      modifies this
      ensures (State(), id) == Spawn(old(State()), starts)
    {
      var taken := AllocateId();
      if taken.None? || !starts {
        return None;
      }
      sessions := sessions[taken.value := Process(size, false)];
      order := order + [taken.value];
      id := Some(taken.value);
    }

    method CloseAgent(id: AgentId, dies: bool) returns (ok: bool)
      modifies this
      ensures (State(), ok) == Close(old(State()), id, dies)
    {
      if id !in sessions {
        return true;
      }
      if !Stops(sessions[id], dies) {
        return false;
      }
      sessions := sessions - {id};
      Retain(id);
      ok := true;
    }

    method Retain(id: AgentId)
      modifies this`order
      ensures order == Without(old(order), id)
    {
      var kept: seq<AgentId> := [];
      var was := order;
      assert was[0..] == was;
      for i := 0 to |was|
        invariant kept + Without(was[i..], id) == Without(was, id)
      {
        assert was[i..][0] == was[i] && was[i..][1..] == was[i + 1..];
        if was[i] != id {
          kept := kept + [was[i]];
        }
      }
      assert kept + [] == kept;
      order := kept;
    }

    method PollAll(exits: set<AgentId>)
      modifies this`sessions
      ensures State() == Poll(old(State()), exits)
    {
      sessions := map id | id in sessions :: sessions[id].(exited := sessions[id].exited || id in exits);
    }

    method ResizeAll(rows: u16, cols: u16, failing: set<AgentId>, failingBack: set<AgentId>) returns (ok: bool)
      requires Tidy(State())
      modifies this
      ensures (State(), ok) == Resize(old(State()), rows, cols, failing, failingBack)
    {
      var target := PtySize(rows, cols);
      if target == size {
        return true;
      }
      var previous := size;
      var resized := ResizeEach(target, failing);
      if |resized| < |order| {
        PutBack(resized, previous, failingBack);
        return false;
      }
      size := target;
      ok := true;
    }

    /** Resizes one terminal after the other and stops at the first that refuses. */
    method ResizeEach(target: Size, failing: set<AgentId>) returns (resized: seq<AgentId>)
      requires forall i | 0 <= i < |order| :: order[i] in sessions
      modifies this`sessions
      ensures resized == UpToFailure(order, failing) && |resized| <= |order|
      ensures State() == SetSizes(old(State()), Members(resized), target)
    {
      ghost var before, done := sessions, {};
      resized := [];
      for i := 0 to |order|
        invariant resized == order[..i] && done == Members(resized) && sessions.Keys == before.Keys
        invariant forall k | 0 <= k < i :: order[k] !in failing
        invariant forall id | id in sessions ::
                  sessions[id] == if id in done then before[id].(size := target) else before[id]
      {
        if order[i] in failing {
          FailsAt(order, i, failing);
          SizesAreSet(old(State()), sessions, done, target);
          return;
        }
        sessions := sessions[order[i] := sessions[order[i]].(size := target)];
        resized := resized + [order[i]];
        done := done + {order[i]};
      }
      FailsAt(order, |order|, failing);
      SizesAreSet(old(State()), sessions, done, target);
    }

    method PutBack(ids: seq<AgentId>, previous: Size, failing: set<AgentId>)
      modifies this`sessions
      ensures State() == SetSizes(old(State()), Members(ids) - failing, previous)
    {
      ghost var before, done := sessions, {};
      for i := 0 to |ids|
        invariant done == Members(ids[..i]) - failing && sessions.Keys == before.Keys
        invariant forall id | id in sessions ::
                  sessions[id] == if id in done then before[id].(size := previous) else before[id]
      {
        assert ids[..i + 1] == ids[..i] + [ids[i]];
        if ids[i] !in failing {
          done := done + {ids[i]};
          if ids[i] in sessions {
            sessions := sessions[ids[i] := sessions[ids[i]].(size := previous)];
          }
        }
      }
      assert ids[..|ids|] == ids;
    }

    /** Stops everything and forgets it, reporting the processes that did not stop. */
    method StopAll(dies: set<AgentId>) returns (errors: seq<AgentId>)
      requires Tidy(State())
      modifies this
      ensures State() == old(State()).(sessions := map[], order := [])
      ensures forall id :: id in errors <==> id in old(sessions) && !Stops(old(sessions)[id], id in dies)
    {
      errors := [];
      for i := 0 to |order|
        invariant State() == old(State())
        invariant forall id :: id in errors <==> id in order[..i] && !Stops(sessions[id], id in dies)
      {
        assert order[..i + 1] == order[..i] + [order[i]];
        if !Stops(sessions[order[i]], order[i] in dies) {
          errors := errors + [order[i]];
        }
      }
      assert order[..|order|] == order;
      sessions := map[];
      order := [];
    }
  }

  // ---------------------------------------------------------------------------------------------
  // What the manager keeps
  // ---------------------------------------------------------------------------------------------

  ghost predicate Ascending(order: seq<AgentId>) {
    forall i, j | 0 <= i < j < |order| :: order[i] < order[j]
  }

  /**
   The order lists exactly the sessions, each once, oldest first, and only identifiers that were handed
   out and will not be again.
   */
  ghost predicate Tidy(m: ManagerState) {
    && Ascending(m.order)
    && (forall id :: id in m.order <==> id in m.sessions)
    && (forall id | id in m.sessions :: if m.nextId.Some? then id < m.nextId.value else id <= MAX_U64)
  }

  lemma {:induction false} WithoutKeepsOrder(order: seq<AgentId>, agent: AgentId)
    requires Ascending(order)
    ensures Ascending(Without(order, agent))
    ensures forall id :: id in Without(order, agent) <==> id in order && id != agent
  {
    if |order| > 0 {
      assert Ascending(order[1..]) by {
        assert forall i | 0 <= i < |order[1..]| :: order[1..][i] == order[i + 1];
      }
      WithoutKeepsOrder(order[1..], agent);
      assert order == [order[0]] + order[1..];
      var rest := Without(order[1..], agent);
      forall i | 0 <= i < |rest|
        ensures order[0] < rest[i]
      {
        assert rest[i] in order[1..];
      }
    }
  }

  lemma SpawnKeepsTidy(m: ManagerState, starts: bool)
    requires Tidy(m)
    ensures Tidy(Spawn(m, starts).0)
    ensures Spawn(m, starts).1.Some? ==> Spawn(m, starts).1.value !in m.sessions
    ensures Spawn(m, starts).1.Some? <==> m.nextId.Some? && starts
  {
    forall i | 0 <= i < |m.order|
      ensures m.nextId.Some? ==> m.order[i] < m.nextId.value
    {
      assert m.order[i] in m.order;
    }
  }

  lemma CloseKeepsTidy(m: ManagerState, id: AgentId, dies: bool)
    requires Tidy(m)
    ensures Tidy(Close(m, id, dies).0)
    ensures Close(m, id, dies).1 ==> id !in Close(m, id, dies).0.sessions
    ensures !Close(m, id, dies).1 ==> Close(m, id, dies).0 == m
  {
    WithoutKeepsOrder(m.order, id);
  }

  lemma {:induction false} UpToFailureIsPrefix(order: seq<AgentId>, failing: set<AgentId>)
    ensures UpToFailure(order, failing) <= order
    ensures |UpToFailure(order, failing)| == |order| <==> forall id | id in order :: id !in failing
    ensures forall id | id in UpToFailure(order, failing) :: id !in failing
  {
    if |order| > 0 {
      UpToFailureIsPrefix(order[1..], failing);
      assert order == [order[0]] + order[1..];
    }
  }

  ghost predicate AllSized(m: ManagerState) {
    forall id | id in m.sessions :: m.sessions[id].size == m.size
  }

  /**
   A resize succeeds exactly when no terminal refuses. Terminals keep agreeing with the recorded size
   exactly when it succeeds or every terminal that has to be put back can be.
   */
  lemma ResizeAgrees(m: ManagerState, rows: u16, cols: u16, failing: set<AgentId>, failingBack: set<AgentId>)
    requires Tidy(m) && AllSized(m)
    ensures var (m', ok) := Resize(m, rows, cols, failing, failingBack);
            && Tidy(m')
            && (ok <==> PtySize(rows, cols) == m.size || forall id | id in m.sessions :: id !in failing)
            && m'.size == (if ok then PtySize(rows, cols) else m.size)
            && (AllSized(m') <==> ok || forall id | id in UpToFailure(m.order, failing) :: id !in failingBack)
  {
    UpToFailureIsPrefix(m.order, failing);
    var (m', ok) := Resize(m, rows, cols, failing, failingBack);
    if !ok {
      var resized := UpToFailure(m.order, failing);
      assert forall id | id in resized :: id in m.order;
      if id :| id in resized && id in failingBack {
        assert m'.sessions[id].size == PtySize(rows, cols);
      }
    }
  }
}
