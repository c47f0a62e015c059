# Svarm, modelled and proved

Svarm runs coding agents in terminals behind a server and shows them in a client that may come and go.
This project models the parts of it where correctness is a matter of many steps rather than one, in Dafny,
and proves what they promise. `dafny verify dfyconfig.toml` checks everything.

- **Screens on their way to the client** (`TerminalModel`, `Frames`, `FrameBook`, `OutgoingQueue`, `Sending`,
  `RemoteAgents`, `FrameNumbers`, `ReplicationSafety`, `Convergence`, `Chasing`, `Recovery`, `Scrolling`). The
  server sends each agent's screen as numbered full frames and diffs through a queue of 64 that evicts frames when
  it is full. Whatever is lost or reordered, a screen the client shows under a number is the screen the server gave
  that number. With nothing lost on the wire, the client is always headed for exactly the server's last frames,
  unless a push evicts an agent's newest frame without replacing it; the theorem is an equivalence. And whatever has
  been lost, by evictions or by frames thrown away, the full frame a client asks for after a gap puts it back on its
  way, until a frame it needs is lost again; that is an equivalence, too.
- **The screen codec** (`WireCodec`, `WireCodecProofs`): run-length coding with a style table, as loops proved
  against functions, with the round trip, canonical form and run counts. `EncodedFrames` joins the two: a run
  whose frames cross the wire encoded is a run without the wire.
- **The session server** (`ServerSession`, `Agents`, `Server`): connections, leases, takeover, stopping.
- **Conversations** (`SessionRuntime`, `Conversations`, `ServerConversations`, `FilingOrder`, `Mirror`,
  `MirrorRuns`, `ConversationStore`, `Persistence`): archiving, resuming, quitting and switching, within one session
  and in the server; the client's mirror of the lists; the store on disk; and server and store together, from
  opening a directory over a request to stop to what the next server finds.
- **Git branches shown for agents** (`GitProbes`).
- **Output streams** (`Controls`, `ColorQueries`, `ConversationIds`, `Reader`, `KeyboardBytes`): recognizing escape
  sequences whatever the sizes of the reads, what they mean, and keyboard modes entered and left in bytes.

Objects that the program updates in place are classes here. Each method is proved against a function from old
to new state, and the theorems are about those functions and whole runs of them. `TerminalFrameTracker` is a
`Copy` value in the program and stays a value. What the world decides, such as whether a process starts, what
git answers or how reads are cut, is a parameter and ranges over everything.

## Where the code does less than one would first say

Each of these is stated in its exact form, as an equivalence or with a lemma that exhibits the failing case.

- A wire form with the fewest runs: only when no one-character cell stands beside a longer one in the same
  style and flags (`LeastRuns`, `TwoRunsWhereOneWouldDo`). A run of graphemes could carry both.
- Convergence fails not only when a viewport is pushed into a full queue but also when an older full frame is,
  after a replacement has overtaken it (`ConvergenceExactly`, `ViewportLosesScreen`, `OldFrameLosesScreen`).
- A client asks for a full frame once. If the answer is lost, too, it does not ask again, whatever diffs arrive, and
  shows the old screen until some other full frame is made (`AsksOnce`, `AnswerMayBeLost`, `FrozenStays`).
- A resumed Pi or Grok conversation is lost if the new process reports another conversation from the start
  (`KnownExactly`, `ResumeMayLose`; the probes are at `crates/svarm-agent/src/session.rs:297-325`).
- A client's archive stays the server's exactly until the first poll whose last filings are not the same, in the
  same order, when quits are told before switches (`ClientMirrors`). When no two agents of a poll share a
  conversation, that is a poll in which an agent whose switch files a conversation comes before one whose quit
  files one (`KeepsOrderExactly`); whatever they share, it is told by the places of the last switches
  (`KeepsOrderByPlaces`). `PollSeparates` is a run that ends in such a poll.
- A scroll answer from before a reset is mistaken for the pending one exactly when the numbers coincide
  (`StepExactly`, `StaleAnswerHappens`). A scroll answer that the server's queue evicts leaves its request pending,
  and nothing more asked for, until a full frame (`LostAnswerWaits`, `AnswerIsLost`).
- A server told to stop writes its conversations down first and then drops its sessions. What is still handled in
  the same turn may write again, that there are none: a connection lost, a round of polls that is due, a request
  that succeeds. Exactly then the next server knows none of what it knew (`StopKeepsExactly`, `StopAndRestart`,
  `StopMayLoseAll`). The guard in `finish_shutdown` (`crates/svarm-agent/src/server.rs:2400`) and the test at
  `crates/svarm-agent/src/server.rs:3157` show that they are meant to be kept; a signal to stop does keep them
  (`SignalKeeps`).
- A readable index in a file not named after its session is never removed (`ForgettingAllExactly`). A sync that
  succeeds after one that failed may leave a file that is not as listed; `SyncAgreesExactly` says when, and
  `OutdatedSync` does it.
- Stopping the server breaks the agreement of its registries whenever somebody holds a lease
  (`StopServerAgreesExactly`), and the requests that then look up a session that is gone, and end the process, are
  exactly those of former holders (`DrainedMissesExactly`, `StopMayCrash`); a refused resize of an attached session
  may change the recorded size (`RefusedResizeExactly`); the last lease token is handed out again and again
  (`LastTokenIsRepeated`).
- A control parameter is read correctly exactly when it fits in 16 bits: the product saturates but the sum does
  not (`FirstParameter`, `TooLargeParameter`). The sum is modelled as it wraps in a release build.
- The order of colour replies among control replies depends on the reads (`ReadsDecideInterleaving`).

## Model

| member | source | states |
|---|---|---|
| TerminalModel.LiveScreen.Check | crates/svarm-agent/src/terminal_model.rs:701-734 | the in-place checks find the first reason to refuse a diff, in the program's order, and write nothing |
| TerminalModel.LiveScreen.ApplyDiff | crates/svarm-agent/src/terminal_model.rs:701-743 | patching in place gives the specified screen or, on refusal, leaves every cell as it was with the right error |
| TerminalModel.ApplyKeepsValid | crates/svarm-agent/src/terminal_model.rs:619-633 | whatever the diff, applying it to a valid screen changes nothing or yields a valid screen |
| TerminalModel.ApplyAcceptsExactly | crates/svarm-agent/src/terminal_model.rs:701-734 | a diff is accepted if and only if it is for this size, in range, carries only its own hyperlinks and leaves a valid screen |
| TerminalModel.DiffIsNotRefused | crates/svarm-agent/src/terminal_model.rs:673-734 | no check refuses a diff between valid screens of one size |
| TerminalModel.CellCountFits | crates/svarm-agent/src/terminal_model.rs:682-685 | every cell index of the largest screen fits in 32 bits, so the cast loses nothing |
| TerminalModel.DiffRebuilds | crates/svarm-agent/src/terminal_model.rs:673-743 | a diff exists exactly for equal sizes, has one patch for each differing cell in ascending order, and applying it gives the second screen |
| TerminalModel.DiffIsMinimal | crates/svarm-agent/src/terminal_model.rs:673-699 | no other diff between the two screens has fewer cell patches |
| WireCodec.InternStyle | crates/svarm-agent/src/terminal_model.rs:429-446 | a style gets the number of its first use, through a map that agrees with the list |
| WireCodec.ScanRun | crates/svarm-agent/src/terminal_model.rs:447-498 | a run reaches exactly to the first cell of another variant, style or flags, and carries those cells |
| WireCodec.EncodeRowLoop | crates/svarm-agent/src/terminal_model.rs:429-504 | the loop over one row equals the recursive encoding of the row and of the style table |
| WireCodec.EncodeSnapshot | crates/svarm-agent/src/terminal_model.rs:420-510 | encoding fails only on an invalid screen, so neither style numbers nor run lengths overflow |
| WireCodec.DecodeRowLoop | crates/svarm-agent/src/terminal_model.rs:530-577 | the loop over the runs of a row equals the recursive decoding, error by error |
| WireCodec.DecodeSnapshot | crates/svarm-agent/src/terminal_model.rs:513-589 | decoding equals its specification on every wire value |
| WireCodecProofs.AttributesRoundTrip | crates/svarm-agent/src/terminal_model.rs:369-391 | attribute bits decode to the attributes they encode and back, for all eight bits |
| WireCodecProofs.TripOverTheWire | crates/svarm-agent/src/terminal_model.rs:417-589 | for every valid screen, what decoding its encoding gives, also under a cleverer grouping of cells |
| WireCodecProofs.RoundTrip | crates/svarm-agent/src/terminal_model.rs:417-589 | a valid screen comes back unchanged if and only if its texts are canonical |
| WireCodecProofs.DecodeGivesValidScreens | crates/svarm-agent/src/terminal_model.rs:513-589 | any wire value decodes to an error or to a valid screen with canonical texts |
| WireCodecProofs.ReencodingIsIdempotent | crates/svarm-agent/src/terminal_model.rs:417-589 | re-encoding an accepted wire value decodes alike, and encoding again changes nothing |
| WireCodecProofs.EncodingIsCanonical | crates/svarm-agent/src/terminal_model.rs:429-504 | neighbouring runs of a row always differ in variant, style or flags |
| WireCodecProofs.ScreenNeedsRuns | crates/svarm-agent/src/terminal_model.rs:513-589 | every wire form of a screen has at least one run for each stretch of equal style, flags and emptiness |
| WireCodecProofs.LeastRuns | crates/svarm-agent/src/terminal_model.rs:429-504 | the encoding has the fewest runs of all wire forms of a screen if and only if the screen has no mixed neighbours |
| WireCodecProofs.MixedAtMeans | crates/svarm-agent/src/terminal_model.rs:447-498 | mixed neighbours are a one-character and a longer cell of the same style and flags |
| WireCodecProofs.TwoRunsWhereOneWouldDo | crates/svarm-agent/src/terminal_model.rs:429-504 | a screen whose encoding does not have the fewest runs |
| FrameBook.Book.NextSequence | crates/svarm-agent/src/server_session.rs:228-242 | an agent's numbers go up by one and stop at the largest, without wrapping |
| FrameBook.Book.TerminalEvent | crates/svarm-agent/src/server.rs:1113-1164 | the next frame is a diff against the last frame, or full when there is none, the size changed or it is forced; the basis becomes this frame |
| FrameBook.Book.Acknowledge | crates/svarm-agent/src/server.rs:1181-1202 | an acknowledgement is recorded or refused as specified, and touches nothing else |
| FrameBook.AcknowledgeIsMonotone | crates/svarm-agent/src/server.rs:1181-1202 | a number is accepted exactly up to the agent's last, and what is recorded never goes back |
| FrameBook.FrameLeadsToScreen | crates/svarm-agent/src/server.rs:1113-1164 | a frame has the agent's next number and leads exactly from the last frame to the screen drawn now; when it is a diff |
| FrameBook.NextFrameKeepsConsistent | crates/svarm-agent/src/server.rs:1113-1164 | every basis stays valid, belongs to a live agent and carries the agent's last number |
| OutgoingQueue.Queue.PushFrame | crates/svarm-agent/src/server.rs:207-243 | a push on the locked queue does what the specification says, case by case |
| OutgoingQueue.Queue.FindTerminal | crates/svarm-agent/src/server.rs:218-223 | finds the agent of the first terminal frame queued |
| OutgoingQueue.Queue.Retain | crates/svarm-agent/src/server.rs:226-228 | drops one agent's terminal frames and keeps the rest in order |
| OutgoingQueue.Queue.Pop | crates/svarm-agent/src/server.rs:245-262 | takes the oldest frame, or none once closed and empty |
| OutgoingQueue.RefusalChangesNothing | crates/svarm-agent/src/server.rs:207-243 | a refused push leaves the queue as it was |
| OutgoingQueue.PushEvictsOneAgent | crates/svarm-agent/src/server.rs:207-243 | a push removes all terminal frames of at most one agent and adds at most itself |
| OutgoingQueue.EvictedAgentsAreResent | crates/svarm-agent/src/server.rs:207-243 | whoever loses a frame is reported to the caller, or is the agent of the full frame or viewport pushed |
| OutgoingQueue.OldestMakesRoom | crates/svarm-agent/src/server.rs:207-243 | other traffic pushed into a full queue evicts the agent of the oldest terminal frame, all of its frames and nobody else's, and reports it |
| OutgoingQueue.RefusedExactlyWhenNothingToEvict | crates/svarm-agent/src/server.rs:207-243 | a full queue refuses a message if and only if it holds nothing that message may evict |
| OutgoingQueue.QueueDiscipline | crates/svarm-agent/src/server.rs:207-262 | over any pushes, pops and closings the length is at most 64 and non-terminal messages come out complete and in order |
| OutgoingQueue.QueueDisciplineFromStart | crates/svarm-agent/src/server.rs:197-262 | the same for every run of a new queue |
| Sending.SendEnvelope | crates/svarm-agent/src/server.rs:2323-2359 | pushes a message and, if asked to, a fresh full frame behind it; the connection survives exactly as specified |
| Sending.SurvivorsAreResent | crates/svarm-agent/src/server.rs:2323-2359 | whoever lost frames on a surviving connection has one at the end of the queue: a full frame, or the viewport just sent |
| Sending.SurvivorsKeepFrames | crates/svarm-agent/src/server.rs:2323-2359 | an agent with frames in the queue still has some after any message that the connection survives |
| RemoteAgents.Client.Handle | crates/svarm-tui/src/agents.rs:235-285 | one message changes the client and makes it answer as specified, and every screen held stays valid |
| RemoteAgents.Client.TakeFull | crates/svarm-tui/src/agents.rs:509-542 | a full frame is applied, known already or refused; applying it drops the view and settles a resync |
| RemoteAgents.Client.TakeDiff | crates/svarm-tui/src/agents.rs:544-556 | a diff is applied, known already or a gap; one that fails to apply resets the tracker |
| RemoteAgents.Client.AfterFrame | crates/svarm-tui/src/agents.rs:595-636 | acknowledges, or asks once for a full frame after a gap |
| RemoteAgents.Client.TakeViewport | crates/svarm-tui/src/agents.rs:558-593 | a viewport answer is ignored, overtaken, shown live, refused or shown, with the request that follows |
| RemoteAgents.Client.Scroll | crates/svarm-tui/src/agents.rs:329-365 | scrolling moves the target and asks for it only when no request is pending |
| RemoteAgents.Client.ShowLive | crates/svarm-tui/src/agents.rs:373-379 | drops the view and its target, and says whether there was a view |
| RemoteAgents.GapAsksOnce | crates/svarm-tui/src/agents.rs:606-636 | a frame the client can make nothing of makes it send one request for a full frame, with the number it holds, unless one is pending; any other frame is acknowledged |
| RemoteAgents.AsksOnce | crates/svarm-tui/src/agents.rs:606-636 | whatever arrives, a request stays pending and no other is sent until a newer full frame or the agent's departure |
| RemoteAgents.ScrollMoves | crates/svarm-tui/src/agents.rs:329-365 | scrolling moves by exactly so many rows as far as there is anywhere to go, and negative rows never lead away from the live screen |
| RemoteAgents.ScrollReturns | crates/svarm-tui/src/agents.rs:329-365 | scrolling and scrolling back by as much returns to where one was |
| ReplicationSafety.AcceptedDiffApplies | crates/svarm-tui/src/agents.rs:544-556 | a diff the server made never fails on a faithful screen whose tracker accepts it, and gives the screen of its number |
| ReplicationSafety.StepKeepsInv | crates/svarm-agent/src/protocol.rs:559-598 | every step keeps frames honest and client screens faithful, with frames lost, repeated and reordered at will |
| ReplicationSafety.ReplicationIsSafe | crates/svarm-tui/src/agents.rs:509-556 | in every state of every run a screen held under number n is the screen the server numbered n |
| ReplicationSafety.HistoryNeverChanges | crates/svarm-agent/src/server_session.rs:228-242 | a number once given to a screen keeps it for the rest of the run |
| ReplicationSafety.AcceptedDiffsNeverFail | crates/svarm-tui/src/agents.rs:544-556 | in every state of every run no diff ever made can fail to apply once accepted |
| EncodedFrames.SurvivesExactly | crates/svarm-agent/src/terminal_model.rs:113-129 | a message comes off the wire as it was sent if and only if the texts it carries, in a screen or in a diff, are canonical |
| EncodedFrames.EncodedRunsAreRuns | crates/svarm-agent/src/terminal_model.rs:397-415 | if the screens drawn have canonical texts, a run with every numbered frame encoded and decoded on the way is a run without the wire |
| EncodedFrames.EncodedReplicationIsSafe | crates/svarm-tui/src/agents.rs:509-556 | so in such a run, too, a screen held under number n is the screen the server numbered n |
| FrameNumbers.HealthyAppendFull | crates/svarm-agent/src/server.rs:1113-1164 | a full frame at the end keeps an agent's stream free of gaps and heading for its basis |
| FrameNumbers.HealthyAppendDiff | crates/svarm-agent/src/server.rs:1113-1164 | so does a diff from the basis |
| FrameNumbers.HealthyReplace | crates/svarm-agent/src/server.rs:2329-2355 | evicted frames replaced by a newer full frame, ahead of older frames not yet queued, leave the stream healthy |
| FrameNumbers.HealthyEvict | crates/svarm-agent/src/server.rs:207-243 | eviction without a newer frame leaves the stream healthy if and only if the newest number was not evicted |
| Convergence.SendIsSending | crates/svarm-agent/src/server.rs:2323-2359 | a push in the pipeline is the server's sending, and a failed one is a lost connection |
| Convergence.StepKeepsInv | crates/svarm-agent/src/server.rs:1113-1216 | every step that is not a losing push keeps all streams healthy; a losing push leaves a state that does not converge |
| Convergence.InvMeansConverged | crates/svarm-tui/src/agents.rs:509-556 | with healthy streams, taking in wire, queue and unsent events ends at the server's basis: same number, same screen |
| Convergence.ConvergenceExactly | crates/svarm-agent/src/server.rs:207-243 | all states of a run converge if and only if no push loses an agent's newest frame |
| Convergence.NoResync | crates/svarm-tui/src/agents.rs:606-636 | in a run that has lost nothing, no delivered frame is a gap and the client never asks for a screen again |
| Convergence.ViewportLosesScreen | crates/svarm-agent/src/server.rs:2479-2486 | for every agent and screen a run exists whose last push, a viewport, loses the agent's only full frame |
| Convergence.OldFrameLosesScreen | crates/svarm-agent/src/server.rs:2329-2355 | and one whose last push is an old full frame evicting its newer replacement |
| Chasing.EvictExactly | crates/svarm-agent/src/server.rs:207-243 | even for a client that has missed frames, an eviction without a replacement is harmless if and only if the newest number is not evicted |
| Chasing.DiscardExactly | crates/svarm-tui/src/agents.rs:655-701 | throwing a frame away is harmless if and only if the client would not have taken it or takes a full frame later |
| Recovery.StepExactly | crates/svarm-agent/src/server.rs:1876-1891 | a step that makes a full frame puts the client on its way home whatever was lost before; any step leaves it there if and only if it does not lose a frame it needs |
| Recovery.HomeMeans | crates/svarm-tui/src/agents.rs:509-556 | being on the way home is to hold the server's newest number and screen, with nothing asked for, once all on its way has been taken in |
| Recovery.RecoveryExactly | crates/svarm-agent/src/server.rs:1876-1891 | in any run with losses, after a full frame is made every later state leads there if and only if no step since has lost a frame that was needed |
| Recovery.NothingOnItsWay | crates/svarm-tui/src/agents.rs:509-556 | with nothing more on its way the client has arrived |
| Recovery.GapIsAsked | crates/svarm-tui/src/agents.rs:606-636 | in any run a delivered gap puts exactly one request on its way to the server, if none is pending |
| Recovery.AnswerMayBeLost | crates/svarm-tui/src/agents.rs:655-701 | for any agent and screen, steps that lose a diff and the answer to the request it causes |
| Recovery.FrozenStays | crates/svarm-tui/src/agents.rs:606-636 | after which no diff makes the client ask again, nor mends its screen |
| Recovery.FirstFrameRests | crates/svarm-agent/src/server.rs:1113-1164 | a run from the start to a state in which they can happen |
| Scrolling.StepExactly | crates/svarm-tui/src/agents.rs:558-593 | with answers as they come off the wire, a step leaves at most one request unanswered, the pending one, if and only if it is no stale answer with the pending number while that is unanswered; and when the pending request becomes, and stays, one whose answer is lost |
| Scrolling.OneRequestAtATime | crates/svarm-tui/src/agents.rs:329-365 | without such an answer, and whatever is lost, at most one request since the last reset is unanswered, and when none is pending the view matches its target |
| Scrolling.AnswersAreValid | crates/svarm-agent/src/terminal_model.rs:408-415 | a decoded answer carries a valid screen, so the client's check of it (`crates/svarm-tui/src/agents.rs:583`) never fails |
| Scrolling.LostAnswerWaits | crates/svarm-tui/src/agents.rs:329-379 | a request whose answer was evicted stays pending until the first full frame, resize or stale answer with its number, which puts the client in step again |
| Scrolling.FullFrameResets | crates/svarm-tui/src/agents.rs:509-542 | a valid full frame newer than what the client has is such a reset |
| Scrolling.OlderAnswersAreNotMissed | crates/svarm-agent/src/server.rs:207-243 | a viewport that takes the place of older frames costs the client no answer it waits for |
| Scrolling.AnswerIsLost | crates/svarm-agent/src/server.rs:207-243 | for every terminal and target, a run whose answer is evicted, after which another scroll asks for nothing |
| Scrolling.StaleAnswerAllowsSecond | crates/svarm-tui/src/agents.rs:558-568 | after a stale answer with the pending number the next scroll asks while a request is unanswered |
| Scrolling.StaleAnswerHappens | crates/svarm-tui/src/agents.rs:329-379 | for every terminal and target, a run from its start that ends with two requests unanswered |
| Scrolling.NewestTargetIsShown | crates/svarm-tui/src/agents.rs:558-593 | answering all stale requests and two more settles the client, on the newest target it was scrolled to, unless a stale answer has the pending number |
| Agents.AgentManager.Start | crates/svarm-agent/src/manager.rs:61-110 | a new agent goes to the end of the order; its identifier is spent even if it does not start |
| Agents.AgentManager.CloseAgent | crates/svarm-agent/src/manager.rs:112-120 | closing a missing agent succeeds, a failed stop changes nothing, a successful one removes it |
| Agents.AgentManager.ResizeAll | crates/svarm-agent/src/manager.rs:265-287 | resizes all terminals, or puts back those already resized as far as that works |
| Agents.AgentManager.StopAll | crates/svarm-agent/src/manager.rs:196-208 | forgets every agent and reports exactly those that did not stop |
| Agents.SpawnKeepsTidy | crates/svarm-agent/src/manager.rs:289-296 | identifiers are new, ascending along the order, and run out without being reused |
| Agents.CloseKeepsTidy | crates/svarm-agent/src/manager.rs:112-120 | closing keeps order and sessions in agreement |
| Agents.ResizeAgrees | crates/svarm-agent/src/manager.rs:265-287 | a resize succeeds exactly if no terminal refuses, and sizes keep agreeing exactly if it succeeds or everything can be put back |
| ServerSession.ServerSessionState.AttachTo | crates/svarm-agent/src/server_session.rs:68-118 | attaching gives the lease, or leaves it and says who holds it |
| ServerSession.ServerSessionState.DetachBy | crates/svarm-agent/src/server_session.rs:124-129 | only the right token ends the lease |
| ServerSession.ServerSessionState.DisconnectFrom | crates/svarm-agent/src/server_session.rs:131-142 | only the holder's disconnection ends the lease |
| ServerSession.ServerSessionState.Remove | crates/svarm-agent/src/server_session.rs:167-173 | removing the selected agent selects the last of those that remain |
| ServerSession.ServerSessionState.Saw | crates/svarm-agent/src/server_session.rs:187-205 | marking an agent seen changes that agent and the revision as specified, or refuses |
| ServerSession.OpenedByItsLease | crates/svarm-agent/src/server_session.rs:68-248 | in any run a token opens the session if and only if an attachment brought it and no detachment, disconnection of the holder, further attachment or stop has ended a lease since |
| ServerSession.SeenIsHighestMark | crates/svarm-agent/src/server_session.rs:155-205 | in any run what an agent was marked seen up to is the highest mark since it was registered, each capped by the output there was |
| ServerSession.RefusalsLeaveNoTrace | crates/svarm-agent/src/server_session.rs:68-248 | a session is what its accepted operations alone would have made of it |
| ServerSession.RevisionCounts | crates/svarm-agent/src/server_session.rs:313-323 | the revision counts the accepted operations, those for a frame number apart, until it saturates |
| ServerSession.ActivityIsLatest | crates/svarm-agent/src/server_session.rs:155-185 | the last activity is the time of the last accepted operation that tells one, and whoever was registered or selected last stays selected until the next such operation or a removal |
| ServerSession.OperationKeepsSelection | crates/svarm-agent/src/server_session.rs:155-185 | every operation keeps an agent selected exactly if there is one, and a member |
| Server.Coordinator.CreateSession | crates/svarm-agent/src/server.rs:2027-2074 | creates and attaches a session, or refuses; the session number is spent even on bad dimensions |
| Server.Coordinator.AttachToSession | crates/svarm-agent/src/server.rs:2084-2152 | attaches, revoking a holder only on takeover, or refuses before committing |
| Server.Coordinator.DetachFromSession | crates/svarm-agent/src/server.rs:1702-1719 | ends the lease and removes a session nothing is left of, with every look-up in range |
| Server.Coordinator.StopSessionRuntime | crates/svarm-agent/src/server.rs:2154-2189 | removes a session and frees its holder |
| Server.Coordinator.Remove | crates/svarm-agent/src/server.rs:2263-2288 | a lost connection ends its lease, and with it a session nothing is left of |
| Server.Coordinator.ApplyRequest | crates/svarm-agent/src/server.rs:1683-2025 | every request does what is specified, no look-up fails, and the registries agree afterwards unless the server stops |
| Server.Coordinator.HandleEnvelope | crates/svarm-agent/src/server.rs:1580-1681 | a greeting, a request or nonsense is handled as specified, revoked connections being closed in the same step |
| Server.StepKeepsValid | crates/svarm-agent/src/server.rs:1570-1681 | every step keeps connections and leases in agreement until the server stops |
| Server.RegistriesAgree | crates/svarm-agent/src/server.rs:1683-2288 | in every state of every run a connection records a session exactly when its lease names the connection; one holder, one session |
| Server.StopServerAgreesExactly | crates/svarm-agent/src/server.rs:1938-1969 | stopping the server keeps the agreement if and only if nobody held a lease |
| Server.DrainedMissesExactly | crates/svarm-agent/src/server.rs:2222-2235 | after the stop a request looks up a missing session if and only if it is a permitted one that needs a session, from a connection that held a lease; before it none does |
| Server.LeaseEndsForGood | crates/svarm-agent/src/server.rs:2385-2392 | a token whose lease has ended, however it ended, opens no session in any later state, the last token excepted |
| Server.LastTokenIsRepeated | crates/svarm-agent/src/server.rs:2385-2392 | once the counter has run out, a takeover hands out the revoked token again |
| Server.AttachExactly | crates/svarm-agent/src/server.rs:2084-2152 | when an attachment succeeds, and that it then gives this connection the lease and the size, frees exactly the old holder and touches nothing else |
| Server.CreateExactly | crates/svarm-agent/src/server.rs:2027-2074 | when a session is created, and that it is then empty, numbered next, of the size asked for and held by this connection, nobody else being touched |
| Server.StoppingExactly | crates/svarm-agent/src/server.rs:2154-2189 | a stopped session is gone, its holder closed if that is another connection, the requester kept with nothing of it attached, and everybody else as before |
| Server.DetachingExactly | crates/svarm-agent/src/server.rs:1702-1719 | a holder that detaches keeps its connection; the session goes on if and only if it has an agent or an archived conversation |
| Server.OthersStayAsTheyAre | crates/svarm-agent/src/server.rs:1683-2025 | no message changes a session but the sender's own, one it attaches to, or one a control client stops; a session that is new is one it has created |
| Server.GreetingExactly | crates/svarm-agent/src/server.rs:1580-1681 | a compatible greeting gives the connection its role, anything else before that closes it |
| Server.InputExactly | crates/svarm-agent/src/server.rs:683-696 | input is accepted exactly for a running agent that takes it, changes that agent's draft only and takes no name away |
| Server.ResizingExactly | crates/svarm-agent/src/server.rs:1822-1846 | when a resize is accepted, and that everything then has the new size |
| Server.LeavingExactly | crates/svarm-agent/src/server.rs:2263-2288 | a session outlives its holder exactly if it has an agent or an archived conversation |
| Server.RefusedAttachChangesNothing | crates/svarm-agent/src/server.rs:2084-2116 | a refused attachment changes no lease, no size and no connection |
| Server.RefusedResizeExactly | crates/svarm-agent/src/server.rs:1822-1846 | a refused resize leaves the recorded size alone exactly if validation refused it or the size was the same |
| SessionRuntime.Runtime.SpawnAgent | crates/svarm-agent/src/server.rs:548-571 | a started agent is registered, selected and observed without a name |
| SessionRuntime.Runtime.CloseAgent | crates/svarm-agent/src/server.rs:573-581 | closes everywhere or nowhere |
| SessionRuntime.Runtime.ArchiveAgent | crates/svarm-agent/src/server.rs:583-609 | files the record of a named conversation only after its agent has stopped, at the front and once |
| SessionRuntime.Runtime.ArchiveQuitAgent | crates/svarm-agent/src/server.rs:612-624 | archives the conversation of an agent that quit, else only closes it |
| SessionRuntime.Runtime.Resume | crates/svarm-agent/src/server.rs:626-681 | starts an agent under the record's name and takes the record out of the archive |
| SessionRuntime.Runtime.PollAgents | crates/svarm-agent/src/server.rs:1218-1364 | handles every report in agent order, and sends archived quits, other quits and switches in that order |
| Conversations.StepKeepsInv | crates/svarm-agent/src/server.rs:548-681 | every step keeps all per-agent records on the same agents and archived identifiers distinct |
| Conversations.QuitKnows | crates/svarm-agent/src/server.rs:612-624 | quitting loses no known conversation and removes the agent, since an exited process always stops |
| Conversations.SwitchKnows | crates/svarm-agent/src/server.rs:1251-1295 | a switch loses no known conversation, neither the old one nor the one reactivated |
| Conversations.KnownExactly | crates/svarm-agent/src/server.rs:573-681 | a step loses a known conversation if and only if it closes its only agent or resumes it under another identifier |
| Conversations.ConversationsAreKept | crates/svarm-agent/src/server.rs:573-681 | over whole runs a known conversation stays known until a step discards it |
| Conversations.SessionsStayConsistent | crates/svarm-agent/src/server.rs:317-331 | in every state archived identifiers are distinct, the order lists each agent once, and the selection is none exactly if it is empty |
| Conversations.ResumeMayLose | crates/svarm-agent/src/server.rs:626-681 | a resume that loses the conversation |
| Conversations.PollLeavesExactly | crates/svarm-agent/src/server.rs:1231-1317 | with truthful reports an agent leaves if and only if it has exited since the last poll and was asked to quit; every other stays as it reports itself, and only those that leave or tell another conversation have a record filed |
| Conversations.SpawnedAsAsked | crates/svarm-agent/src/server.rs:548-571 | a new agent is the program asked for in the directory asked for, selected, without name or draft |
| Conversations.ResumeBringsBack | crates/svarm-agent/src/server.rs:626-681 | a resumed conversation is the program, directory and name that were archived; its record is out of the archive and all others stay |
| Conversations.ResumeThenArchive | crates/svarm-agent/src/server.rs:583-681 | archiving what has been resumed puts the very record back in front |
| Conversations.ArchiveThenResume | crates/svarm-agent/src/server.rs:583-681 | resuming what has been archived gives an agent of the same record, nothing else having changed |
| Conversations.SwitchBrings | crates/svarm-agent/src/server.rs:1251-1295 | after a switch the old record is in front of the archive, the new conversation not in it, and its name, or that of its first message, is the agent's |
| Conversations.SwitchAndBack | crates/svarm-agent/src/server.rs:1251-1295 | switching to another conversation and back gives the same record again |
| Conversations.CloseSelectsNewest | crates/svarm-agent/src/server_session.rs:167-173 | closing the selected agent selects the newest of those that remain |
| ServerConversations.ServerStep | crates/svarm-agent/src/server.rs:1683-2288 | a step of the server keeps the invariant of every session, and loses a known conversation if and only if it stops its session or discards it |
| ServerConversations.SessionsStayConsistent | crates/svarm-agent/src/server.rs:2237-2249 | in every state of every run with truthful polls all per-agent records of every session agree and archived identifiers are distinct |
| ServerConversations.ConversationsStay | crates/svarm-agent/src/server.rs:1683-2288 | what a session knows, the server knows until a step drops it |
| Mirror.App.RemoveAgent | crates/svarm-tui/src/app.rs:937-945 | removes an agent by identifier and keeps the selection in range |
| Mirror.SelectionFollows | crates/svarm-tui/src/app.rs:901-945 | adding selects the new agent; removing keeps the position selected unless that is past the end |
| Mirror.App.ArchiveRemoteAgent | crates/svarm-tui/src/app.rs:947-952 | removes the agent and files the record once, at the front |
| Mirror.App.ResumeRemoteAgent | crates/svarm-tui/src/app.rs:954-959 | takes the record out and adds the agent |
| Mirror.App.ApplyConversationSwitch | crates/svarm-tui/src/app.rs:961-977 | takes out the reactivated record, then files the old one |
| FilingOrder.EventOrderExactly | crates/svarm-agent/src/server.rs:1336-1359 | for any outcomes and any archive, quits before switches gives the same archive if and only if the same records are filed last in the same order |
| FilingOrder.ApartExactly | crates/svarm-agent/src/server.rs:1336-1359 | with no conversation touched twice, that is if and only if no switch that files a record precedes an archived quit |
| FilingOrder.PlacesExactly | crates/svarm-agent/src/server.rs:1336-1359 | whatever is touched twice, that is if and only if, of each conversation a quit files last, the last switch to touch it files the same record, and conversations filed last come in the order of their last switches |
| Mirror.PollIsForetold | crates/svarm-agent/src/server.rs:1231-1295 | quits, switches and records of a poll are those of the state before it, whatever the poll has done to other agents |
| Mirror.PollMirrors | crates/svarm-agent/src/server.rs:1336-1359 | after a poll of any length the client's agents are the server's, and its archive is if and only if the poll keeps the order |
| Mirror.KeepsOrderExactly | crates/svarm-agent/src/server.rs:1231-1295 | for reports that share no conversation, a poll keeps the order if and only if nobody whose switch files one is polled before somebody whose quit does |
| Mirror.KeepsOrderByPlaces | crates/svarm-agent/src/server.rs:1231-1359 | and for any reports, if and only if the outcomes foretold from the state before the poll meet that condition |
| Mirror.QuitsFirstKeepsOrder | crates/svarm-agent/src/server.rs:1336-1359 | whatever is shared, a poll with no archived quit after a switch keeps the order |
| MirrorRuns.ClientMirrors | crates/svarm-tui/src/app.rs:901-977 | a client that attaches in any state of any run always has the server's agents, and has had its archive all along if and only if no poll since failed to keep the order |
| MirrorRuns.PollSeparates | crates/svarm-agent/src/server.rs:1251-1359 | for every kind of agent and any names, a run whose last poll leaves every client attached before it with the two newest records the other way round |
| Mirror.SwitchThenQuit | crates/svarm-agent/src/server.rs:1336-1359 | for a switch reported before an archived quit, sharing a conversation or not, the exact condition on the state before the poll |
| ConversationStore.RestoredConversations | crates/svarm-agent/src/conversation_store.rs:51-67 | the loop with a set of seen identifiers keeps the first record of each complete or archived conversation |
| ConversationStore.ActiveComeFirst | crates/svarm-agent/src/conversation_store.rs:51-67 | complete active conversations come first, then the archived ones that are not active |
| ConversationStore.UnseenIsFirst | crates/svarm-agent/src/conversation_store.rs:51-67 | the record kept of a conversation is its first |
| ConversationStore.UnseenHas | crates/svarm-agent/src/conversation_store.rs:51-67 | a conversation keeps a record exactly if it had one |
| ConversationStore.Store.constructor | crates/svarm-agent/src/conversation_store.rs:75-98 | opening reads every supported index, later files overriding earlier ones |
| ConversationStore.Store.Sync | crates/svarm-agent/src/conversation_store.rs:100-122 | succeeds if and only if none of the operations it has to do fails; success gives exactly the listed non-empty indexes, and after a failure every file is as it was or as it was to become, the failed one according to when it failed |
| ConversationStore.Store.Remove | crates/svarm-agent/src/conversation_store.rs:148-156 | removes a file if there is one, and forgets the session only on success |
| ConversationStore.OpenAgrees | crates/svarm-agent/src/conversation_store.rs:75-98 | opening a well-named directory, in any order of listing, agrees with what is on disk |
| ConversationStore.SyncAgrees | crates/svarm-agent/src/conversation_store.rs:100-122 | a successful sync keeps the agreement |
| ConversationStore.SyncAgreesExactly | crates/svarm-agent/src/conversation_store.rs:100-122 | whatever failed before, a successful sync makes store and directory agree if and only if the files it leaves alone are right |
| ConversationStore.OutdatedSync | crates/svarm-agent/src/conversation_store.rs:100-146 | a failed sync and a successful one after which the file is not what was synced last |
| ConversationStore.ReopeningYieldsLastList | crates/svarm-agent/src/conversation_store.rs:75-122 | after any successful syncs, reopening yields the non-empty indexes of the last list |
| ConversationStore.ForgettingAllExactly | crates/svarm-agent/src/conversation_store.rs:100-122 | syncing an empty list leaves nothing to reopen if and only if every readable index was in the file of a session the store had read |
| ConversationStore.RestartKeepsExactly | crates/svarm-agent/src/server.rs:721-744 | the index written for one session restores exactly its archived conversations and those of agents with identifier and name, each once, and so every known one |
| Persistence.StepKeepsStored | crates/svarm-agent/src/server.rs:1460-1472 | every step of server and store keeps what the store remembers equal to what a reader of the directory finds, and gives new sessions new numbers |
| Persistence.RestartedIsInitial | crates/svarm-agent/src/server.rs:1411-1458 | every directory opens into a server in which numbers are free and every session is consistent |
| Persistence.WrittenIsKnown | crates/svarm-agent/src/server.rs:1460-1472 | what a session knows when it is written down is known to a server that opens the directory |
| Persistence.StopKeepsExactly | crates/svarm-agent/src/server.rs:1938-1969 | what a session knows when the server is told to stop is known to the next server if and only if nothing still handled writes again, the guard being on each thing handled |
| Persistence.StopAndRestart | crates/svarm-agent/src/server.rs:1514-1548 | the same over whole lives: a directory opened, any steps with truthful polls, the request to stop, anything still handled, the next server |
| Persistence.StopMayKeepAll | crates/svarm-agent/src/server.rs:2399-2413 | a run that is told to stop and leaves to the next server all it opened |
| Persistence.StopMayLoseAll | crates/svarm-agent/src/server.rs:2237-2252 | and one whose due round of polls leaves nothing |
| Persistence.SignalKeeps | crates/svarm-agent/src/server.rs:1547-1555 | stopping on a signal loses nothing that was known |
| Persistence.StopMayCrash | crates/svarm-agent/src/server.rs:2222-2235 | a run in which, after the stop, any request under a lease that was held looks up a session that is gone |
| GitProbes.GitTracker.ApplyGitObservation | crates/svarm-agent/src/server.rs:1012-1027 | records directory and context together, and says whether either changed |
| GitProbes.GitTracker.ApplyGitResult | crates/svarm-agent/src/server.rs:866-930 | takes one result, answers everyone in the probed directory, and reports exactly the agents whose record changed |
| GitProbes.GitTracker.ScheduleGitRefresh | crates/svarm-agent/src/server.rs:949-1000 | goes through the agents, selected first, until one needs a probe, and reports exactly the changed ones |
| GitProbes.GitProvenance | crates/svarm-agent/src/server.rs:866-1027 | in every state of every run what is shown came from a probe of the recorded directory, one probe at most is on its way, and its answer matches the in-flight record |
| GitProbes.AnswerReachesEveryone | crates/svarm-agent/src/server.rs:891-925 | what an answer does to each agent: those in the directory show it, one that moved shows nothing |
| GitProbes.SchedulingServes | crates/svarm-agent/src/server.rs:949-1000 | scheduling leaves nobody due unless it has asked about an agent that must wait, and the selected one goes first |
| GitProbes.DueExactly | crates/svarm-agent/src/server.rs:2427-2433 | an agent that has not moved falls due after one second if selected and after five if not, so the selected one is due no later than another |
| Controls.Detector.Process | crates/svarm-agent/src/terminal.rs:213-357 | the byte loop equals the recursive scan, with every position |
| Controls.FirstParameter | crates/svarm-agent/src/terminal.rs:234-252 | a parameter is read as the number of its digits if and only if that number fits in 16 bits |
| Controls.SecondParameter | crates/svarm-agent/src/terminal.rs:236-244 | the same for the second parameter |
| Controls.TooLargeParameter | crates/svarm-agent/src/terminal.rs:241-246 | 65536 is read as 0 |
| Controls.SequenceMeansItsParameters | crates/svarm-agent/src/terminal.rs:217-265 | from any state, a control sequence, with a prefix or without, brings the scanner to exactly its parameters |
| Controls.SequenceIsReportedOnce | crates/svarm-agent/src/terminal.rs:213-357 | from any state such a sequence is reported once at most, at its last byte, as what that byte means for its parameters |
| Controls.PlainQueriesAreReported | crates/svarm-agent/src/terminal.rs:213-357 | without a prefix, `n` after 5 or 6 and `c` after nothing or 0 are reported as the three questions, and nothing else is |
| Controls.CursorStyleIsReported | crates/svarm-agent/src/terminal.rs:213-357 | a number, a space and `q` set the style of that number, wherever they come |
| Controls.KeyboardModesAreReported | crates/svarm-agent/src/terminal.rs:317-341 | `CSI > f u` is reported as entering a mode with flags f, `CSI < n u` as leaving n |
| Controls.KeyboardFlagsAreReported | crates/svarm-agent/src/terminal.rs:317-341 | `CSI = f u` is reported as setting the flags to f |
| Controls.KeyboardChangesAreReported | crates/svarm-agent/src/terminal.rs:317-341 | `CSI = f ; m u` is reported as the change of flags in the way of m |
| Controls.PrivateQuestionsAreReported | crates/svarm-agent/src/terminal.rs:276-351 | `CSI ? u`, `CSI ? 6 n` and `CSI ? 1007 h` or `l` are reported as what they are, and with other numbers not at all |
| Controls.AdjustMeans | crates/svarm-agent/src/terminal.rs:144-167 | bit by bit, what each way of changing flags does |
| Controls.PopsAddUp | crates/svarm-agent/src/terminal.rs:144-167 | leaving several modes at once is leaving them one after the other |
| Controls.KeyboardState.Apply | crates/svarm-agent/src/terminal.rs:144-167 | pushes, pops and adjustments do what is specified, and the stack never exceeds 32 |
| Controls.EnterRestores | crates/svarm-agent/src/terminal.rs:144-167 | leaving a keyboard mode restores the keyboard exactly, whatever nested session ran inside, while there is depth |
| Controls.PushPopRestores | crates/svarm-agent/src/terminal.rs:144-159 | a push and a pop restore the keyboard if and only if the stack had room |
| KeyboardBytes.WrittenIsMeant | crates/svarm-agent/src/terminal.rs:213-357 | a session of modes written in bytes does to the keyboard what the session does, from any state of the scanner |
| KeyboardBytes.EnteringRestores | crates/svarm-agent/src/terminal.rs:144-357 | in bytes, entering a mode gives its flags, and leaving it gives the keyboard back whatever was written in between, while there is depth |
| KeyboardBytes.ReaderRestores | crates/svarm-agent/src/terminal_process.rs:387-447 | so an agent's terminal has its keyboard back after reading that |
| ColorQueries.Detector.Process | crates/svarm-agent/src/terminal.rs:370-401 | one read reports every question in the pending and new bytes and keeps at most seven bytes |
| ColorQueries.NoneInside | crates/svarm-agent/src/terminal.rs:371-376 | no question starts inside another, so skipping past one misses none |
| ColorQueries.CarryStandsForStream | crates/svarm-agent/src/terminal.rs:394-399 | the bytes kept stand for the whole stream so far |
| ColorQueries.AnySplitReportsAll | crates/svarm-agent/src/terminal.rs:370-401 | however a stream is cut, exactly its questions are reported, and the same bytes stay pending |
| ColorQueries.QuestionIsReported | crates/svarm-agent/src/terminal.rs:371-376 | which colour is asked for is the digit, and either terminator will do |
| ConversationIds.Detector.Process | crates/svarm-agent/src/recognition.rs:449-505 | searching, draining and trimming the buffer equals following the bytes one by one |
| ConversationIds.AnySplitIsOneCall | crates/svarm-agent/src/recognition.rs:449-505 | over any cutting, the last identifier and the pending bytes are those of one call on the whole stream |
| ConversationIds.ReportedIdsAreWellFormed | crates/svarm-agent/src/recognition.rs:403-433 | only well-formed identifiers are reported, UUIDs in lower case |
| ConversationIds.CodexReportsExactly | crates/svarm-agent/src/recognition.rs:469-482 | Codex reports the leftmost UUID of a title that no hexadecimal digit or dash touches, in lower case |
| ConversationIds.OpenCodeReportsExactly | crates/svarm-agent/src/recognition.rs:423-431 | OpenCode reports the leftmost session identifier that stands by itself between bars, white space and the ends, behind the marker in a title |
| ConversationIds.OthersReportExactly | crates/svarm-agent/src/recognition.rs:475-482 | Claude's command carries one UUID and nothing else, 59 bytes in all; Pi and Grok report nothing this way |
| Reader.OutputReader.Read | crates/svarm-agent/src/terminal_process.rs:387-447 | one read gives the emulator its bytes and acts on each sequence exactly as byte-by-byte delivery would |
| Reader.DigitsReadBack | crates/svarm-agent/src/terminal.rs:91-105 | a number in an answer reads back as itself |
| Reader.KeyboardAnswerCarriesFlags | crates/svarm-agent/src/terminal_process.rs:433-442 | the keyboard answer, scanned in whatever state, carries the keyboard's flags |
| Reader.CursorAnswerCarriesPosition | crates/svarm-agent/src/terminal.rs:94-105 | the cursor's answers, scanned in whatever state, carry its row and then its column, counted from one |
| Reader.ColorAnswerCarriesColor | crates/svarm-agent/src/terminal.rs:17-23 | a colour's answer names the colour asked for and reads back as its red, green and blue |
| Reader.QuestionsAreAnswered | crates/svarm-agent/src/terminal_process.rs:411-447 | a question in the output is answered once, with the cursor or the keyboard's flags as of then |
| Reader.SettingsAreHeard | crates/svarm-agent/src/terminal_process.rs:411-447 | the scroll mode and the cursor's style become what the sequence says |
| Reader.SlicesAreBytes | crates/svarm-agent/src/terminal_process.rs:411-447 | slicing at the recognized positions is delivering byte by byte |
| Reader.ReadsDoNotMatter | crates/svarm-agent/src/terminal_process.rs:382-458 | for any reads the emulator gets the output once and in order, and keyboard, style, scroll mode and each kind of reply depend only on the output |
| Reader.SameOutputSameReader | crates/svarm-agent/src/terminal_process.rs:382-458 | two cuttings of one output leave the same reader |
| Reader.ReadsDecideInterleaving | crates/svarm-agent/src/terminal_process.rs:398-411 | an output for which the reads decide which reply is written first |

## Left out

- Sockets, threads, locks, processes, signals and file calls: steps, parameters, or a map in place of a directory.
- Message framing and JSON: payloads are values; what is not inspected is kept as one opaque value.
- The `vt100` emulator: it is a function of the bytes received, and the screens it draws are assumed valid.
- Wide-cell rules, titles, recognition of activity and naming: text tables.
- Input encoding, usage figures, harness updates, worktrees, logging, command line and drawing.
- Wall-clock pacing: the time is a parameter wherever it is compared.
- Convergence.ConvergenceExactly: the client handles every frame that arrives. `RemoteAgents::send_and_wait` (`crates/svarm-tui/src/agents.rs:655-701`) throws away frames while it waits; that is loss, which `ReplicationIsSafe` and `RecoveryExactly` cover.
- MirrorRuns.ClientMirrors: for the same reason it says nothing of events thrown away by `send_and_wait`, which spawning uses.
- Mirror.PollMirrors: does not model the events of a poll that change neither list.
- SessionRuntime.Runtime.PollAgents: does not model the revision number, which a poll also raises for changes outside this model, nor polls of agents that fail.
- Server.Coordinator.ApplyRequest: does not model palettes, usage, the bytes of input or launch directories that do not exist, and takes the requests that only look at an agent as one; acknowledgements are in `FrameBook`.
- Server.LeaseEndsForGood: leaves out the very last token, because the counter saturates and repeats it.
- GitProbes.GitProvenance: the worker thread does not die; if it did, its probe would stay in flight and nothing new would be shown.
- ConversationIds.AnySplitIsOneCall: bodies are bytes, not decoded text; no pattern accepts a byte above 0x7f.
- Reader.ReadsDoNotMatter: the palette is the same for all reads, and the output generation, one per read, is not kept.
- ReplicationSafety.ReplicationIsSafe: one session and one client at a time; reconnecting starts a new client.
- Persistence.StopKeepsExactly: writing is taken to succeed; what a failed write leaves is in `ConversationStore.SyncAgreesExactly`. A request whose look-up misses ends the process, and nothing is written on the way.
