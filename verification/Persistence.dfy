/**
 The server together with its store: when it writes down the conversations of its sessions, what a crash,
 a signal or a request to stop leaves on disk, and what the next server makes of it. Writing itself is
 taken to succeed here; `ConversationStore` says what a failure leaves.
 */
module Persistence {
  import opened Basics
  import opened Server
  import C = ConversationStore
  import K = Conversations
  import R = SessionRuntime
  import S = ServerSession
  import V = ServerConversations

  /** A host that has crashed or finished does nothing any more. */
  datatype Host = Host(
    server: ServerState, disk: C.Disk, saved: map<S.SessionId, C.ConversationIndex>, crashed: bool, finished: bool)

  // ---------------------------------------------------------------------------------------------
  // Writing
  // ---------------------------------------------------------------------------------------------

  /** The conversation indexes of all sessions. */
  function IndexesOf(s: ServerState): map<S.SessionId, C.ConversationIndex> {
    map x | x in s.sessions :: C.IndexOf(s.sessions[x])
  }

  function OwnFiles(sessions: set<S.SessionId>): set<C.FileName> {
    set x | x in sessions :: C.OwnFile(x)
  }

  /** The directory after a successful `sync`. */
  function Synced(
    disk: C.Disk, saved: map<S.SessionId, C.ConversationIndex>, current: map<S.SessionId, C.ConversationIndex>): C.Disk
  {
    map f | f in disk.Keys + OwnFiles(current.Keys) && C.FileAfter(disk, saved, current, f).Some? ::
      C.FileAfter(disk, saved, current, f).value
  }

  lemma SyncedLooks(
    disk: C.Disk, saved: map<S.SessionId, C.ConversationIndex>, current: map<S.SessionId, C.ConversationIndex>)
    ensures forall f :: C.Look(Synced(disk, saved, current), f) == C.FileAfter(disk, saved, current, f)
  {
  }

  function Persist(h: Host): Host {
    h.(disk := Synced(h.disk, h.saved, IndexesOf(h.server)), saved := C.NonEmpty(IndexesOf(h.server)))
  }

  // ---------------------------------------------------------------------------------------------
  // Steps
  // ---------------------------------------------------------------------------------------------

  /**
   `Serve` is a step of the server; `Tick` ends a round of polls; `Idle` is the end of a server that nobody
   uses; `Finish` is what follows the main loop.
   */
  datatype Action = Serve(step: Server.Action) | Tick | Signal | Idle | Finish

  predicate Stops(s: ServerState, c: S.ConnectionId, request: Request) {
    && c in s.connections && s.connections[c].role.Some? && Permitted(s.connections[c].role.value, request)
    && request == StopServer(true)
  }

  /**
   A request that succeeds is followed by a write; one to stop the server writes before it drops the
   sessions, and not after. A look-up that misses ends the process.
   */
  function Receive(h: Host, c: S.ConnectionId, m: Server.Message, w: World): Host {
    if c in h.server.connections && h.server.connections[c].role.Some? && m.RequestMessage? then
      if Misses(h.server, c, m.request) then h.(crashed := true)
      else
        var (next, outcome) := Apply(h.server, c, m.request, w);
        var kept := Written(h, m.request, Stops(h.server, c, m.request), next, outcome.result.Ok?);
        kept.(server := RemoveAll(next, outcome.disconnect, w.now))
    else h.(server := HandleMessage(h.server, c, m, w))
  }

  function Written(h: Host, request: Request, stops: bool, next: ServerState, ok: bool): Host {
    var noted := if stops then Persist(h) else h;
    var applied := noted.(server := next);
    if ok && !request.StopServer? then Persist(applied) else applied
  }

  function Poll(s: ServerState, x: S.SessionId, exits: set<nat>, reports: seq<R.Report>): ServerState {
    if x !in s.sessions then s else WithRuntime(s, x, R.Poll(s.sessions[x], exits, reports).0)
  }

  function Step(h: Host, a: Action): Host {
    if h.crashed || h.finished then h
    else
      match a
      case Serve(Accepted) => if h.server.stopping then h else h.(server := Accept(h.server))
      case Serve(Received(c, m, w)) => Receive(h, c, m, w)
      case Serve(Disconnected(c, now)) => Persist(h.(server := RemoveConnection(h.server, c, now)))
      case Serve(Polled(x, exits, reports)) => h.(server := Poll(h.server, x, exits, reports))
      case Tick => Persist(h)
      case Signal => if h.server.stopping then h else Persist(h).(server := h.server.(stopping := true))
      case Idle =>
        if h.server.sessions == map[] && h.server.connections == map[] then h.(server := h.server.(stopping := true))
        else h
      case Finish =>
        if !h.server.stopping then h
        else
          var kept := if h.server.sessions == map[] then h else Persist(h);
          kept.(server := h.server.(sessions := map[], connections := map[]), finished := true)
  }

  function After(h: Host, actions: seq<Action>): Host
    decreases |actions|
  {
    if |actions| == 0 then h else After(Step(h, actions[0]), actions[1..])
  }

  // ---------------------------------------------------------------------------------------------
  // Starting
  // ---------------------------------------------------------------------------------------------

  /** A restored session: its conversations are archived, and nobody holds it. */
  function Revived(x: S.SessionId, index: C.ConversationIndex, now: u64): R.RuntimeState {
    EmptyRuntime(S.New(x, 24, 80, now).value).(archived := C.Restored(index))
  }

  /** One more than the largest session number read. */
  function FirstFree(disk: C.Disk, listing: seq<C.FileName>): u64
    requires forall f | f in listing :: f in disk
  {
    if |listing| == 0 then 1
    else
      var rest := FirstFree(disk, listing[..|listing| - 1]);
      var content := disk[listing[|listing| - 1]];
      if !C.IsIndex(content) then rest
      else if content.index.session == MAX_U64 then MAX_U64
      else S.Max(rest, content.index.session + 1)
  }

  /** The server that opens a directory. */
  function Restarted(disk: C.Disk, listing: seq<C.FileName>, now: u64): ServerState
    requires forall f | f in listing :: f in disk
  {
    var found := C.Opened(disk, listing);
    ServerState(map[], map x | x in found :: Revived(x, found[x], now), 1, FirstFree(disk, listing), 1, false)
  }

  function Started(disk: C.Disk, listing: seq<C.FileName>, now: u64): Host
    requires forall f | f in listing :: f in disk
  {
    Host(Restarted(disk, listing, now), disk, C.Opened(disk, listing), false, false)
  }

  lemma {:induction false} NumbersAreTaken(disk: C.Disk, listing: seq<C.FileName>)
    requires forall f | f in listing :: f in disk
    ensures forall x | x in C.Opened(disk, listing) ::
            x < FirstFree(disk, listing) || FirstFree(disk, listing) == MAX_U64
  {
    if |listing| > 0 {
      NumbersAreTaken(disk, listing[..|listing| - 1]);
    }
  }

  lemma RevivedInv(x: S.SessionId, index: C.ConversationIndex, now: u64)
    ensures K.Inv(Revived(x, index, now))
  {
    C.RestoredHas(C.Complete(index.active), index.archived, "");
  }

  /** Every directory can be opened: the server starts as servers do. */
  lemma RestartedIsInitial(disk: C.Disk, listing: seq<C.FileName>, now: u64)
    requires forall f | f in listing :: f in disk
    ensures Initial(Restarted(disk, listing, now)) && V.SessionsInv(Restarted(disk, listing, now))
  {
    NumbersAreTaken(disk, listing);
    forall x | x in C.Opened(disk, listing)
      ensures K.Inv(Restarted(disk, listing, now).sessions[x])
    {
      RevivedInv(x, C.Opened(disk, listing)[x], now);
    }
  }

  // ---------------------------------------------------------------------------------------------
  // Store and directory
  // ---------------------------------------------------------------------------------------------

  /** Every session knows its own number. */
  ghost predicate Named(s: ServerState) {
    forall x | x in s.sessions :: s.sessions[x].state.id == x
  }

  ghost predicate Stored(h: Host) {
    C.Agree(h.saved, h.disk) && Named(h.server)
  }

  lemma PersistAgrees(h: Host)
    requires Stored(h)
    ensures Stored(Persist(h))
  {
    var current := IndexesOf(h.server);
    SyncedLooks(h.disk, h.saved, current);
    assert C.Repairs(h.disk, h.saved, current);
    C.RepairedAgrees(h.disk, h.saved, current, Persist(h).disk);
  }

  /** What is found on reopening is what the store remembers. */
  lemma ReopensSaved(h: Host, listing: seq<C.FileName>)
    requires Stored(h) && C.Lists(listing, h.disk)
    ensures C.Opened(h.disk, listing) == h.saved
  {
    C.OpenAgrees(h.disk, listing);
    C.AgreeDetermines(C.Opened(h.disk, listing), h.saved, h.disk);
  }

  /** The sessions after a step are those before it, under the numbers they had, and new ones under new numbers. */
  ghost predicate OnlyNew(s: ServerState, s': ServerState) {
    && s.nextSession <= s'.nextSession && Named(s')
    && forall x | x in s'.sessions :: x in s.sessions || s.nextSession <= x < MAX_U64
  }

  lemma RequestKeepsNumber(r: R.RuntimeState, request: Request, w: World)
    ensures SessionRequest(r, request, w).0.state.id == r.state.id
  {
    SessionRequestKeepsLease(r, request, w);
  }

  lemma CreateOnlyNew(s: ServerState, c: S.ConnectionId, rows: u16, cols: u16, w: World)
    requires Named(s) && c in s.connections
    ensures OnlyNew(s, Create(s, c, rows, cols, w).0)
  {
  }

  lemma AttachOnlyNew(s: ServerState, c: S.ConnectionId, x: S.SessionId, rows: u16, cols: u16, takeover: bool, w: World)
    requires Named(s) && c in s.connections
    ensures OnlyNew(s, Attach(s, c, x, rows, cols, takeover, w).0)
  {
  }

  lemma WithinOnlyNew(s: ServerState, c: S.ConnectionId, request: Request, w: World)
    requires Named(s) && c in s.connections && !Lost(s, c) && IsLeased(request)
    ensures OnlyNew(s, WithinSession(s, c, request, w).0)
  {
    var x := AttachedSession(s, c, request.token);
    if x.Ok? {
      RequestKeepsNumber(s.sessions[x.value], request, w);
    }
  }

  lemma ApplyOnlyNew(s: ServerState, c: S.ConnectionId, request: Request, w: World)
    requires Named(s) && c in s.connections && s.connections[c].role.Some? && !Misses(s, c, request)
    ensures OnlyNew(s, Apply(s, c, request, w).0)
  {
    if Permitted(s.connections[c].role.value, request) {
      if request.CreateSession? {
        CreateOnlyNew(s, c, request.rows, request.cols, w);
      } else if request.AttachSession? {
        AttachOnlyNew(s, c, request.session, request.rows, request.cols, request.takeover, w);
      } else if IsLeased(request) {
        WithinOnlyNew(s, c, request, w);
      } else {
        OthersOnlyNew(s, c, request, w);
      }
    }
  }

  /** Every other request takes sessions away, if it changes them. */
  lemma OthersOnlyNew(s: ServerState, c: S.ConnectionId, request: Request, w: World)
    requires Named(s) && c in s.connections && s.connections[c].role.Some? && !Misses(s, c, request)
    requires !request.CreateSession? && !request.AttachSession? && !IsLeased(request)
    ensures OnlyNew(s, Apply(s, c, request, w).0)
  {
  }

  lemma {:induction false} RemoveAllOnlyNew(s: ServerState, connections: seq<S.ConnectionId>, now: u64)
    requires Named(s)
    ensures Named(RemoveAll(s, connections, now)) && RemoveAll(s, connections, now).nextSession == s.nextSession
    ensures RemoveAll(s, connections, now).sessions.Keys <= s.sessions.Keys
    decreases |connections|
  {
    if |connections| > 0 {
      RemoveAllOnlyNew(RemoveConnection(s, connections[0], now), connections[1..], now);
    }
  }

  lemma WrittenIsStored(h: Host, request: Request, stops: bool, next: ServerState, ok: bool)
    requires Stored(h) && Named(next)
    ensures Stored(Written(h, request, stops, next, ok)) && Written(h, request, stops, next, ok).server == next
  {
    PersistAgrees(h);
    PersistAgrees((if stops then Persist(h) else h).(server := next));
  }

  lemma ReceiveKeepsStored(h: Host, c: S.ConnectionId, m: Server.Message, w: World)
    requires Stored(h)
    ensures Stored(Receive(h, c, m, w)) && OnlyNew(h.server, Receive(h, c, m, w).server)
  {
    if c in h.server.connections && h.server.connections[c].role.Some? && m.RequestMessage? {
      if !Misses(h.server, c, m.request) {
        var (next, outcome) := Apply(h.server, c, m.request, w);
        ApplyOnlyNew(h.server, c, m.request, w);
        WrittenIsStored(h, m.request, Stops(h.server, c, m.request), next, outcome.result.Ok?);
        RemoveAllOnlyNew(next, outcome.disconnect, w.now);
        FewerStillStored(
          h.server, Written(h, m.request, Stops(h.server, c, m.request), next, outcome.result.Ok?),
          RemoveAll(next, outcome.disconnect, w.now));
      }
    } else {
      OthersKeepSessions(h.server, c, m, w);
    }
  }

  lemma FewerStillStored(s: ServerState, h: Host, last: ServerState)
    requires Stored(h) && OnlyNew(s, h.server) && Named(last)
    requires last.nextSession == h.server.nextSession && last.sessions.Keys <= h.server.sessions.Keys
    ensures Stored(h.(server := last)) && OnlyNew(s, last)
  {
  }

  /** A message that is not a request of somebody greeted. */
  lemma OthersKeepSessions(s: ServerState, c: S.ConnectionId, m: Server.Message, w: World)
    requires Named(s) && !(c in s.connections && s.connections[c].role.Some? && m.RequestMessage?)
    ensures OnlyNew(s, HandleMessage(s, c, m, w))
  {
  }

  lemma PollOnlyNew(s: ServerState, x: S.SessionId, exits: set<nat>, reports: seq<R.Report>)
    requires Named(s)
    ensures OnlyNew(s, Poll(s, x, exits, reports))
  {
    if x in s.sessions {
      PollKeepsLease(s.sessions[x], exits, reports);
    }
  }

  lemma DisconnectOnlyNew(s: ServerState, c: S.ConnectionId, now: u64)
    requires Named(s)
    ensures OnlyNew(s, RemoveConnection(s, c, now))
  {
  }

  /** In every state of every run the store remembers exactly what a reader of the directory finds. */
  lemma StepKeepsStored(h: Host, a: Action)
    requires Stored(h)
    ensures Stored(Step(h, a)) && OnlyNew(h.server, Step(h, a).server)
  {
    if !h.crashed && !h.finished {
      match a {
        case Serve(Accepted) =>
        case Serve(Received(c, m, w)) => ReceiveKeepsStored(h, c, m, w);
        case Serve(Disconnected(c, now)) =>
          DisconnectOnlyNew(h.server, c, now);
          PersistAgrees(h.(server := RemoveConnection(h.server, c, now)));
        case Serve(Polled(x, exits, reports)) => PollOnlyNew(h.server, x, exits, reports);
        case Tick => PersistAgrees(h);
        case Signal => PersistAgrees(h);
        case Idle =>
        case Finish => PersistAgrees(h);
      }
    }
  }

  lemma {:induction false} AfterKeepsStored(h: Host, actions: seq<Action>)
    requires Stored(h)
    ensures Stored(After(h, actions))
    decreases |actions|
  {
    if |actions| > 0 {
      StepKeepsStored(h, actions[0]);
      AfterKeepsStored(Step(h, actions[0]), actions[1..]);
    }
  }

  // ---------------------------------------------------------------------------------------------
  // After the server has been told to stop
  // ---------------------------------------------------------------------------------------------

  /**
   The guard of the steps that write once the sessions are gone: a connection is lost, a round of polls
   ends, or a request succeeds that needs no session, another one to stop included.
   */
  predicate Rewrites(h: Host, a: Action) {
    && !h.crashed && !h.finished
    && match a
       case Serve(Received(c, m, _)) =>
         && c in h.server.connections && h.server.connections[c].role.Some? && m.RequestMessage?
         && Permitted(h.server.connections[c].role.value, m.request)
         && (match m.request
             case ReadUsage => true
             case ServerStatus => true
             case ListSessions => true
             case StopServer(confirmed) => confirmed
             case CreateSession(rows, cols) =>
               h.server.connections[c].attached.None? && h.server.nextSession < MAX_U64 && rows > 0 && cols > 0
             case _ => false)
       case Serve(Disconnected(_, _)) => true
       case Tick => true
       case _ => false
  }

  predicate RewritesLater(h: Host, actions: seq<Action>)
    decreases |actions|
  {
    |actions| > 0 && (Rewrites(h, actions[0]) || RewritesLater(Step(h, actions[0]), actions[1..]))
  }

  /** The sessions are gone and the server is stopping. */
  predicate Emptied(h: Host) {
    h.server.sessions == map[] && h.server.stopping
  }

  lemma RemoveFromEmpty(s: ServerState, c: S.ConnectionId, now: u64)
    requires s.sessions == map[]
    ensures RemoveConnection(s, c, now).sessions == map[] && RemoveConnection(s, c, now).stopping == s.stopping
  {
  }

  /** A message that does not make the stopping server write leaves it without sessions. */
  lemma QuietMessage(h: Host, c: S.ConnectionId, m: Server.Message, w: World)
    requires Emptied(h) && !h.crashed && !h.finished && !Rewrites(h, Serve(Received(c, m, w)))
    ensures var next := Receive(h, c, m, w); Emptied(next) && next.disk == h.disk && next.saved == h.saved
  {
    if c in h.server.connections {
      RemoveFromEmpty(h.server, c, w.now);
      if h.server.connections[c].role.Some? && m.RequestMessage? && !Misses(h.server, c, m.request) {
        QuietRequest(h, c, m.request, w);
      }
    }
  }

  lemma QuietRequest(h: Host, c: S.ConnectionId, request: Request, w: World)
    requires Emptied(h) && !h.crashed && !h.finished && c in h.server.connections && h.server.connections[c].role.Some?
    requires !Misses(h.server, c, request) && !Rewrites(h, Serve(Received(c, RequestMessage(request), w)))
    ensures var (next, outcome) := Apply(h.server, c, request, w);
            && next.sessions == map[] && next.stopping && !Stops(h.server, c, request) && outcome.disconnect == []
            && (outcome.result.Ok? ==> request.StopServer?)
  {
  }

  lemma QuietStep(h: Host, a: Action)
    requires Emptied(h) && !Rewrites(h, a)
    ensures var next := Step(h, a); Emptied(next) && next.disk == h.disk && next.saved == h.saved
  {
    if !h.crashed && !h.finished {
      match a {
        case Serve(Received(c, m, w)) => QuietMessage(h, c, m, w);
        case _ =>
      }
    }
  }

  /** A step that does write leaves nothing of the sessions the server had. */
  lemma RewritingStep(h: Host, a: Action)
    requires Emptied(h) && Rewrites(h, a)
    ensures forall x | x in Step(h, a).saved :: h.server.nextSession <= x < MAX_U64
  {
    match a {
      case Serve(Received(c, m, w)) =>
        CreatedIsEmpty(h, c, m, w);
      case Serve(Disconnected(c, now)) => RemoveFromEmpty(h.server, c, now);
      case _ =>
    }
  }

  lemma CreatedIsEmpty(h: Host, c: S.ConnectionId, m: Server.Message, w: World)
    requires Emptied(h) && Rewrites(h, Serve(Received(c, m, w)))
    ensures Receive(h, c, m, w).saved == map[]
  {
  }

  /** All sessions there are, and all that are written, have numbers that were free when the server was told to stop. */
  ghost predicate AllLater(h: Host, first: u64) {
    && first <= h.server.nextSession
    && (forall x | x in h.server.sessions :: first <= x < MAX_U64)
    && (forall x | x in h.saved :: first <= x < MAX_U64)
  }

  ghost predicate SavedFrom(h: Host, saved: map<S.SessionId, C.ConversationIndex>) {
    forall x | x in saved :: x in h.saved || x in h.server.sessions || h.server.nextSession <= x < MAX_U64
  }

  lemma PersistSavesFrom(h: Host, server: ServerState)
    requires server.sessions.Keys <= h.server.sessions.Keys
    ensures SavedFrom(h, Persist(h.(server := server)).saved)
  {
  }

  lemma ReceiveSavesSessions(h: Host, c: S.ConnectionId, m: Server.Message, w: World)
    requires Stored(h)
    ensures SavedFrom(h, Receive(h, c, m, w).saved)
  {
    if c in h.server.connections && h.server.connections[c].role.Some? && m.RequestMessage? {
      if !Misses(h.server, c, m.request) {
        ApplyOnlyNew(h.server, c, m.request, w);
      }
    }
  }

  lemma SavedFromSessions(h: Host, a: Action)
    requires Stored(h)
    ensures SavedFrom(h, Step(h, a).saved)
  {
    if !h.crashed && !h.finished {
      PersistSavesFrom(h, h.server);
      match a {
        case Serve(Received(c, m, w)) => ReceiveSavesSessions(h, c, m, w);
        case Serve(Disconnected(c, now)) => PersistSavesFrom(h, RemoveConnection(h.server, c, now));
        case Serve(Accepted) =>
        case Serve(Polled(_, _, _)) =>
        case Tick =>
        case Signal =>
        case Idle =>
        case Finish =>
      }
    }
  }

  lemma StepKeepsLater(h: Host, a: Action, first: u64)
    requires Stored(h) && AllLater(h, first)
    ensures AllLater(Step(h, a), first)
  {
    StepKeepsStored(h, a);
    SavedFromSessions(h, a);
  }

  lemma {:induction false} AfterKeepsLater(h: Host, actions: seq<Action>, first: u64)
    requires Stored(h) && AllLater(h, first)
    ensures AllLater(After(h, actions), first)
    decreases |actions|
  {
    if |actions| > 0 {
      StepKeepsStored(h, actions[0]);
      StepKeepsLater(h, actions[0], first);
      AfterKeepsLater(Step(h, actions[0]), actions[1..], first);
    }
  }

  /** Either nothing is written any more, or nothing of the sessions the server had is left. */
  lemma {:induction false} EmptiedExactly(h: Host, actions: seq<Action>)
    requires Stored(h) && Emptied(h)
    ensures !RewritesLater(h, actions) ==> After(h, actions).disk == h.disk && After(h, actions).saved == h.saved
    ensures RewritesLater(h, actions) ==> AllLater(After(h, actions), h.server.nextSession)
    decreases |actions|
  {
    if |actions| > 0 {
      var next := Step(h, actions[0]);
      StepKeepsStored(h, actions[0]);
      if Rewrites(h, actions[0]) {
        RewritingStep(h, actions[0]);
        AfterKeepsLater(next, actions[1..], h.server.nextSession);
      } else {
        QuietStep(h, actions[0]);
        EmptiedExactly(next, actions[1..]);
        LaterIsLater(After(next, actions[1..]), next.server.nextSession, h.server.nextSession);
      }
    }
  }

  lemma LaterIsLater(h: Host, first: u64, sooner: u64)
    requires sooner <= first
    ensures AllLater(h, first) ==> AllLater(h, sooner)
  {
  }

  // ---------------------------------------------------------------------------------------------
  // What the next server knows
  // ---------------------------------------------------------------------------------------------

  /** A server that has not been told to stop. */
  ghost predicate Serving(h: Host) {
    && !h.crashed && !h.finished && !h.server.stopping
    && Valid(h.server) && V.SessionsInv(h.server) && Stored(h)
  }

  /** An index written for a session revives exactly into what the session knows or is about to know. */
  lemma RevivedKnows(r: R.RuntimeState, x: S.SessionId, now: u64, k: R.ConversationId)
    requires K.Inv(r)
    ensures K.Known(r, k) ==> K.Known(Revived(x, C.IndexOf(r), now), k) && !C.IsEmpty(C.IndexOf(r))
  {
    C.RestartKeepsExactly(r, k);
    if C.IsEmpty(C.IndexOf(r)) {
      assert C.Restored(C.IndexOf(r)) == [];
    }
  }

  /** What is written when a write is made is known to a server that opens the directory. */
  lemma WrittenIsKnown(h: Host, listing: seq<C.FileName>, now: u64, x: S.SessionId, k: R.ConversationId)
    requires Stored(h) && V.SessionsInv(h.server) && C.Lists(listing, Persist(h).disk)
    ensures V.KnownIn(h.server, x, k) ==> V.KnownIn(Restarted(Persist(h).disk, listing, now), x, k)
  {
    PersistAgrees(h);
    ReopensSaved(Persist(h), listing);
    if V.KnownIn(h.server, x, k) {
      RevivedKnows(h.server.sessions[x], x, now, k);
    }
  }

  function StopNow(c: S.ConnectionId, w: World): Action {
    Serve(Received(c, RequestMessage(StopServer(true)), w))
  }

  lemma StopStep(h: Host, c: S.ConnectionId, w: World)
    requires Serving(h) && c in h.server.connections && h.server.connections[c].role == Some(Control)
    ensures var stopped := Step(h, StopNow(c, w));
            && Emptied(stopped) && Stored(stopped) && !stopped.crashed && !stopped.finished
            && stopped.disk == Persist(h).disk && stopped.saved == Persist(h).saved
            && stopped.server == h.server.(sessions := map[], stopping := true)
  {
    StepKeepsStored(h, StopNow(c, w));
  }

  /**
   Main result: a conversation that a session knows when the server is told to stop is known to the next
   server, whatever else the stopping server still handles, exactly if nothing it handles makes it write
   again. For each such conversation, and in whatever order the directory is listed.
   */
  lemma StopKeepsExactly(
    h: Host, c: S.ConnectionId, w: World, rest: seq<Action>, listing: seq<C.FileName>, now: u64, x: S.SessionId,
    k: R.ConversationId)
    requires Serving(h) && c in h.server.connections && h.server.connections[c].role == Some(Control)
    requires V.KnownIn(h.server, x, k)
    requires C.Lists(listing, After(Step(h, StopNow(c, w)), rest).disk)
    ensures V.KnownIn(Restarted(After(Step(h, StopNow(c, w)), rest).disk, listing, now), x, k)
            <==> !RewritesLater(Step(h, StopNow(c, w)), rest)
  {
    var stopped := Step(h, StopNow(c, w));
    var end := After(stopped, rest);
    StopStep(h, c, w);
    EmptiedExactly(stopped, rest);
    AfterKeepsStored(stopped, rest);
    ReopensSaved(end, listing);
    if RewritesLater(stopped, rest) {
      assert x < h.server.nextSession || h.server.nextSession == MAX_U64;
    } else {
      WrittenIsKnown(h, listing, now, x, k);
    }
  }

  lemma AfterTwo(h: Host, a: Action, b: Action)
    ensures After(h, [a, b]) == Step(Step(h, a), b)
  {
    assert [a, b][1..] == [b] && [b][1..] == [];
    assert After(Step(h, a), [b]) == After(Step(Step(h, a), b), []);
  }

  lemma FinishWrites(h: Host)
    requires !h.crashed && !h.finished && h.server.stopping && h.server.sessions != map[]
    ensures Step(h, Finish).disk == Persist(h).disk
  {
  }

  /** A signal to stop loses nothing: the sessions are written while they are there. */
  lemma SignalKeeps(h: Host, listing: seq<C.FileName>, now: u64, x: S.SessionId, k: R.ConversationId)
    requires Serving(h) && V.KnownIn(h.server, x, k) && C.Lists(listing, After(h, [Signal, Finish]).disk)
    ensures V.KnownIn(Restarted(After(h, [Signal, Finish]).disk, listing, now), x, k)
  {
    var stopping := Step(h, Signal);
    AfterTwo(h, Signal, Finish);
    FinishWrites(stopping);
    StepKeepsStored(h, Signal);
    WrittenIsKnown(stopping, listing, now, x, k);
  }

  // ---------------------------------------------------------------------------------------------
  // Every run
  // ---------------------------------------------------------------------------------------------

  /** Polls along the way report what is so. */
  ghost predicate HonestAll(h: Host, actions: seq<Action>)
    decreases |actions|
  {
    |actions| > 0 ==>
      (actions[0].Serve? ==> V.Honest(h.server, actions[0].step)) && HonestAll(Step(h, actions[0]), actions[1..])
  }

  /** While it serves, the host's server is the server. */
  lemma ServeIsNext(h: Host, b: Server.Action)
    requires Serving(h)
    ensures Step(h, Serve(b)).server == Server.Next(h.server, b) && !Step(h, Serve(b)).crashed
            && !Step(h, Serve(b)).finished
  {
  }

  lemma ServingStep(h: Host, a: Action)
    requires Serving(h) && (a.Serve? ==> V.Honest(h.server, a.step))
    ensures Step(h, a).server.stopping || Serving(Step(h, a))
  {
    StepKeepsStored(h, a);
    if a.Serve? {
      ServeIsNext(h, a.step);
      StepKeepsValid(h.server, a.step);
      V.ServerStep(h.server, a.step, 0, "");
    }
  }

  lemma StoppingStays(h: Host, a: Action)
    requires h.server.stopping
    ensures Step(h, a).server.stopping
  {
    if a.Serve? && a.step.Received? {
      MessageKeepsStopping(h, a.step.c, a.step.m, a.step.w);
    }
  }

  lemma MessageKeepsStopping(h: Host, c: S.ConnectionId, m: Server.Message, w: World)
    requires h.server.stopping
    ensures Receive(h, c, m, w).server.stopping
  {
    if c in h.server.connections && h.server.connections[c].role.Some? && m.RequestMessage? {
      if !Misses(h.server, c, m.request) {
        var (next, outcome) := Apply(h.server, c, m.request, w);
        ApplyKeepsStopping(h.server, c, m.request, w);
        RemoveAllKeepsStopping(next, outcome.disconnect, w.now);
      }
    }
  }

  lemma ApplyKeepsStopping(s: ServerState, c: S.ConnectionId, request: Request, w: World)
    requires c in s.connections && s.connections[c].role.Some? && !Misses(s, c, request) && s.stopping
    ensures Apply(s, c, request, w).0.stopping
  {
  }

  lemma {:induction false} StoppingLasts(h: Host, actions: seq<Action>)
    requires h.server.stopping
    ensures After(h, actions).server.stopping
    decreases |actions|
  {
    if |actions| > 0 {
      StoppingStays(h, actions[0]);
      StoppingLasts(Step(h, actions[0]), actions[1..]);
    }
  }

  lemma {:induction false} RunServes(h: Host, actions: seq<Action>)
    requires Serving(h) && HonestAll(h, actions)
    ensures After(h, actions).server.stopping || Serving(After(h, actions))
    decreases |actions|
  {
    if |actions| > 0 {
      var next := Step(h, actions[0]);
      ServingStep(h, actions[0]);
      if next.server.stopping {
        StoppingLasts(next, actions[1..]);
      } else {
        RunServes(next, actions[1..]);
      }
    }
  }

  /** A host that opens a well-named directory serves. */
  lemma StartedServes(disk: C.Disk, listing: seq<C.FileName>, now: u64)
    requires C.WellNamed(disk) && C.Lists(listing, disk)
    ensures Serving(Started(disk, listing, now))
  {
    RestartedIsInitial(disk, listing, now);
    C.OpenAgrees(disk, listing);
  }

  /**
   The same over whole lives of the server: it opens a directory, serves, is told to stop, still handles
   `rest`, and the next server opens what is left.
   */
  lemma StopAndRestart(
    disk: C.Disk, listing: seq<C.FileName>, before: seq<Action>, c: S.ConnectionId, w: World, rest: seq<Action>,
    relisted: seq<C.FileName>, now: u64, x: S.SessionId, k: R.ConversationId)
    requires C.WellNamed(disk) && C.Lists(listing, disk) && HonestAll(Started(disk, listing, now), before)
    requires var h := After(Started(disk, listing, now), before);
             && !h.server.stopping && V.KnownIn(h.server, x, k)
             && c in h.server.connections && h.server.connections[c].role == Some(Control)
             && C.Lists(relisted, After(Step(h, StopNow(c, w)), rest).disk)
    ensures var stopped := Step(After(Started(disk, listing, now), before), StopNow(c, w));
            V.KnownIn(Restarted(After(stopped, rest).disk, relisted, now), x, k) <==> !RewritesLater(stopped, rest)
  {
    StartedServes(disk, listing, now);
    RunServes(Started(disk, listing, now), before);
    StopKeepsExactly(After(Started(disk, listing, now), before), c, w, rest, relisted, now, x, k);
  }

  // ---------------------------------------------------------------------------------------------
  // Runs that lose, and that crash
  // ---------------------------------------------------------------------------------------------

  lemma AfterConcat(h: Host, a: seq<Action>, b: seq<Action>)
    ensures After(h, a + b) == After(After(h, a), b)
    decreases |a|
  {
    if |a| == 0 {
      assert a + b == b;
    } else {
      assert (a + b)[1..] == a[1..] + b;
      AfterConcat(Step(h, a[0]), a[1..], b);
    }
  }

  /** A client accepted and greeted. */
  function Greet(c: S.ConnectionId, role: ConnectionRole, w: World): seq<Action> {
    [Serve(Accepted), Serve(Received(c, Hello(role, true, None), w))]
  }

  lemma Greeted(h: Host, c: S.ConnectionId, role: ConnectionRole, w: World)
    requires Serving(h) && c == h.server.nextConnection < MAX_U64
    ensures var next := After(h, Greet(c, role, w));
            && Serving(next) && next.disk == h.disk && next.saved == h.saved
            && next.server == h.server.(
                 connections := h.server.connections[c := Connection(Some(role), None, None)], nextConnection := c + 1)
  {
    var accepted, greeting := Step(h, Serve(Accepted)), Serve(Received(c, Hello(role, true, None), w));
    AfterTwo(h, Serve(Accepted), greeting);
    ServingStep(h, Serve(Accepted));
    ServingStep(accepted, greeting);
    assert c !in h.server.connections;
  }

  lemma FinishWritesNothing(h: Host)
    requires Emptied(h)
    ensures !RewritesLater(h, [Finish])
  {
    assert [Finish][1..] == [];
  }

  /** A round of polls that ends after the sessions are gone writes that there are none. */
  lemma TickForgetsAll(h: Host, relisted: seq<C.FileName>)
    requires Stored(h) && Emptied(h) && !h.crashed && !h.finished
    requires C.Lists(relisted, After(h, [Tick, Finish]).disk)
    ensures C.Opened(After(h, [Tick, Finish]).disk, relisted) == map[]
  {
    AfterTwo(h, Tick, Finish);
    AfterKeepsStored(h, [Tick, Finish]);
    ReopensSaved(After(h, [Tick, Finish]), relisted);
  }

  /** Whatever a server has opened: told to stop and finishing at once, it leaves all of it to the next one. */
  lemma StopMayKeepAll(
    disk: C.Disk, listing: seq<C.FileName>, relisted: seq<C.FileName>, now: u64, w: World, x: S.SessionId,
    k: R.ConversationId)
    requires C.WellNamed(disk) && C.Lists(listing, disk) && V.KnownIn(Restarted(disk, listing, now), x, k)
    requires C.Lists(relisted,
             After(Step(After(Started(disk, listing, now), Greet(1, Control, w)), StopNow(1, w)), [Finish]).disk)
    ensures var stopped := Step(After(Started(disk, listing, now), Greet(1, Control, w)), StopNow(1, w));
            V.KnownIn(Restarted(After(stopped, [Finish]).disk, relisted, now), x, k)
  {
    var h := After(Started(disk, listing, now), Greet(1, Control, w));
    StartedServes(disk, listing, now);
    Greeted(Started(disk, listing, now), 1, Control, w);
    StopStep(h, 1, w);
    FinishWritesNothing(Step(h, StopNow(1, w)));
    StopKeepsExactly(h, 1, w, [Finish], relisted, now, x, k);
  }

  /** And told to stop just before a round of polls ends, it leaves nothing. */
  lemma StopMayLoseAll(disk: C.Disk, listing: seq<C.FileName>, relisted: seq<C.FileName>, now: u64, w: World)
    requires C.WellNamed(disk) && C.Lists(listing, disk)
    requires C.Lists(relisted,
             After(Step(After(Started(disk, listing, now), Greet(1, Control, w)), StopNow(1, w)), [Tick, Finish]).disk)
    ensures var stopped := Step(After(Started(disk, listing, now), Greet(1, Control, w)), StopNow(1, w));
            C.Opened(After(stopped, [Tick, Finish]).disk, relisted) == map[]
  {
    StartedServes(disk, listing, now);
    Greeted(Started(disk, listing, now), 1, Control, w);
    StopStep(After(Started(disk, listing, now), Greet(1, Control, w)), 1, w);
    TickForgetsAll(Step(After(Started(disk, listing, now), Greet(1, Control, w)), StopNow(1, w)), relisted);
  }

  /** Once the server has been stopped, the next request under a lease that was held ends the process. */
  lemma HolderCrashes(h: Host, c: S.ConnectionId, w: World, d: S.ConnectionId, x: S.SessionId, request: Request)
    requires Serving(h) && c in h.server.connections && h.server.connections[c].role == Some(Control)
    requires Holds(h.server, d, x) && h.server.connections[d].role == Some(Interactive) && NeedsSession(request)
    ensures var stopped := Step(h, StopNow(c, w));
            && !Agreement(stopped.server) && Misses(stopped.server, d, request)
            && Step(stopped, Serve(Received(d, RequestMessage(request), w))).crashed
  {
    StopStep(h, c, w);
    assert Records(h.server, d, x);
    var stopped := Step(h, StopNow(c, w));
    HolderMisses(h.server, stopped.server, d, x, request);
    MissCrashes(stopped, d, request, w);
  }

  lemma HolderMisses(s: ServerState, stopped: ServerState, d: S.ConnectionId, x: S.SessionId, request: Request)
    requires Records(s, d, x) && s.connections[d].role == Some(Interactive) && NeedsSession(request)
    requires stopped == s.(sessions := map[], stopping := true)
    ensures !Agreement(stopped) && Misses(stopped, d, request)
  {
    assert Records(stopped, d, x) && !Holds(stopped, d, x);
  }

  lemma MissCrashes(h: Host, d: S.ConnectionId, request: Request, w: World)
    requires !h.crashed && !h.finished && Misses(h.server, d, request)
    ensures Step(h, Serve(Received(d, RequestMessage(request), w))).crashed
  {
  }

  lemma CreatedHolds(h: Host, c: S.ConnectionId, w: World, rows: u16, cols: u16)
    requires Serving(h) && c in h.server.connections
             && h.server.connections[c] == Connection(Some(Interactive), None, None)
    requires h.server.nextSession < MAX_U64 && rows > 0 && cols > 0
    ensures var next := Step(h, Serve(Received(c, RequestMessage(CreateSession(rows, cols)), w)));
            && Serving(next) && Holds(next.server, c, h.server.nextSession)
            && next.server.nextConnection == h.server.nextConnection
            && next.server.connections.Keys == h.server.connections.Keys
            && next.server.connections[c].role == Some(Interactive)
  {
    ServingStep(h, Serve(Received(c, RequestMessage(CreateSession(rows, cols)), w)));
  }

  /** A client greets the server, creates a session, and another greets it for control. */
  function Meeting(w: World, rows: u16, cols: u16): seq<Action> {
    Greet(1, Interactive, w) + [Serve(Received(1, RequestMessage(CreateSession(rows, cols)), w))] + Greet(2, Control, w)
  }

  lemma Met(h: Host, w: World, rows: u16, cols: u16)
    requires Serving(h) && h.server.nextConnection == 1 && h.server.nextSession < MAX_U64 && rows > 0 && cols > 0
    ensures var met := After(h, Meeting(w, rows, cols));
            && Serving(met) && Holds(met.server, 1, h.server.nextSession)
            && 1 in met.server.connections && met.server.connections[1].role == Some(Interactive)
            && 2 in met.server.connections && met.server.connections[2].role == Some(Control)
  {
    var create := Serve(Received(1, RequestMessage(CreateSession(rows, cols)), w));
    var first := After(h, Greet(1, Interactive, w));
    var created := Step(first, create);
    Greeted(h, 1, Interactive, w);
    CreatedHolds(first, 1, w, rows, cols);
    Greeted(created, 2, Control, w);
    AfterConcat(h, Greet(1, Interactive, w) + [create], Greet(2, Control, w));
    AfterConcat(h, Greet(1, Interactive, w), [create]);
    assert [create][1..] == [] && After(created, []) == created;
  }

  /**
   Such a run: a client holds a session when a control client stops the server. The registries no longer
   agree, and any request under its lease that is still handled ends the process.
   */
  lemma StopMayCrash(
    disk: C.Disk, listing: seq<C.FileName>, now: u64, w: World, rows: u16, cols: u16, request: Request)
    requires C.WellNamed(disk) && C.Lists(listing, disk) && FirstFree(disk, listing) < MAX_U64 && rows > 0 && cols > 0
    requires NeedsSession(request)
    ensures var met := After(Started(disk, listing, now), Meeting(w, rows, cols));
            var stopped := Step(met, StopNow(2, w));
            && Serving(met) && !Agreement(stopped.server) && Misses(stopped.server, 1, request)
            && Step(stopped, Serve(Received(1, RequestMessage(request), w))).crashed
  {
    StartedServes(disk, listing, now);
    Met(Started(disk, listing, now), w, rows, cols);
    HolderCrashes(After(Started(disk, listing, now), Meeting(w, rows, cols)), 2, w, 1, FirstFree(disk, listing),
      request);
  }
}
