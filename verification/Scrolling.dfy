/**
 Scrolling back in one agent's screen. The client keeps at most one viewport request unanswered, whatever
 the user does meanwhile, and the request that follows an overtaken one is for the newest target.

 A full frame or a resize drops the view and forgets the request, but its answer is still on the way. Such
 a stale answer is harmless unless its number happens to be that of the request now pending. Answers may
 also be lost, when the server's queue evicts an agent's frames to make room. The request then stays
 pending, and nothing is asked for, until a reset; which is why the full frame behind every eviction
 matters here, too.
 */
module Scrolling {
  import opened Basics
  import opened TerminalModel
  import opened Frames
  import opened RemoteAgents
  import W = WireCodec
  import P = WireCodecProofs

  /**
   One agent's terminal, and the requests whose answers are still to come, oldest first: from before the last
   reset, and since.
   */
  datatype Wire = Wire(t: CachedTerminal, stale: seq<nat>, current: seq<nat>)

  /** `Evicted(i, j)` is the loss of the answers from position `i` up to `j` of all that are still to come. */
  datatype Action =
    | Scroll(rows: int)
    | Show
    | Reset(snapshot: TerminalSnapshot, tracker: TerminalFrameTracker)
    | Answered(scrollback: nat, snapshot: TerminalSnapshot)
    | Evicted(i: nat, j: nat)

  function ToLive(t: CachedTerminal): CachedTerminal {
    t.(target := None, scrollback := None)
  }

  function Asked(request: Option<nat>): seq<nat> {
    if request.Some? then [request.value] else []
  }

  /** What is left of a sequence whose elements from `i` up to `j` are gone. */
  function Cut(s: seq<nat>, i: int, j: int): seq<nat> {
    if i >= j || i >= |s| || j <= 0 then s
    else s[..if i > 0 then i else 0] + s[if j < |s| then j else |s|..]
  }

  /** Answers come in the order of the requests. */
  function Next(w: Wire, a: Action): Wire {
    match a
    case Scroll(rows) =>
      var (t, request) := ScrollTerminal(w.t, rows);
      w.(t := t, current := w.current + Asked(request))
    case Show => w.(t := ToLive(w.t))
    case Reset(snapshot, tracker) =>
      Wire(Live(w.t.(snapshot := snapshot, tracker := tracker)), w.stale + w.current, [])
    case Answered(scrollback, snapshot) =>
      if |w.stale| > 0 then
        var (t, _, again) := Answer(w.t, w.stale[0], scrollback, snapshot);
        Wire(t, w.stale[1..], w.current + Asked(again))
      else if |w.current| > 0 then
        var (t, _, again) := Answer(w.t, w.current[0], scrollback, snapshot);
        Wire(t, [], w.current[1..] + Asked(again))
      else w
    case Evicted(i, j) => Wire(w.t, Cut(w.stale, i, j), Cut(w.current, i - |w.stale|, j - |w.stale|))
  }

  /** An answer has been decoded off the wire. */
  ghost predicate FromWire(a: Action) {
    a.Answered? ==> exists wire :: W.Decode(wire) == Ok(a.snapshot)
  }

  /** So the screen it carries is valid, and the client's own check of that never fails. */
  lemma AnswersAreValid(a: Action)
    requires FromWire(a) && a.Answered?
    ensures Valid(a.snapshot)
  {
    var wire :| W.Decode(wire) == Ok(a.snapshot);
    P.DecodeGivesValidScreens(wire);
  }

  /** With nothing pending, the screen is live without a target, or shows its target. */
  predicate Settled(t: CachedTerminal) {
    && (t.target.None? ==> t.scrollback.None?)
    && (t.request.None? && t.target.Some? ==> t.scrollback.Some? && t.scrollback.value.offset == t.target.value)
  }

  /** The one request since the last reset that is unanswered is the one the terminal waits for. */
  predicate InStep(w: Wire) {
    w.current == Asked(w.t.request) && Settled(w.t)
  }

  /** The terminal waits for an answer that has been lost. */
  predicate Waiting(w: Wire) {
    w.current == [] && w.t.request.Some? && Settled(w.t)
  }

  predicate OneAtATime(w: Wire) {
    InStep(w) || Waiting(w)
  }

  /** A stale answer carries the number of the pending request. */
  predicate Echoes(w: Wire, a: Action) {
    a.Answered? && |w.stale| > 0 && w.t.request == Some(w.stale[0])
  }

  /**
   The guard of the one step that goes wrong: it is not the pending request that has been answered, which is
   still to be.
   */
  predicate Breaks(w: Wire, a: Action) {
    Echoes(w, a) && w.current != []
  }

  /** The guard of a loss that matters: the answer to the pending request is among those evicted. */
  predicate Loses(w: Wire, a: Action) {
    a.Evicted? && a.i <= |w.stale| < a.j && w.current != []
  }

  /**
   Main result: a step leaves at most one request unanswered, the pending one, exactly when it is no such
   echo; and from there the pending request is one whose answer has been lost exactly when this step lost
   it, or it was before and the step is neither a reset nor an echo.
   */
  lemma StepExactly(w: Wire, a: Action)
    requires OneAtATime(w) && FromWire(a)
    ensures OneAtATime(Next(w, a)) <==> !Breaks(w, a)
    ensures !Breaks(w, a) ==> (Waiting(Next(w, a)) <==> Loses(w, a) || (Waiting(w) && !a.Reset? && !Echoes(w, a)))
  {
    match a {
      case Scroll(rows) =>
      case Show =>
      case Reset(_, _) =>
      case Answered(scrollback, snapshot) =>
        AnswersAreValid(a);
        if |w.stale| > 0 {
          StaleAnswer(w, a);
        } else if |w.current| > 0 {
          FreshAnswer(w, a);
        }
      case Evicted(i, j) =>
    }
  }

  lemma StaleAnswer(w: Wire, a: Action)
    requires OneAtATime(w) && a.Answered? && Valid(a.snapshot) && |w.stale| > 0
    ensures OneAtATime(Next(w, a)) <==> !Breaks(w, a)
    ensures !Breaks(w, a) ==> (Waiting(Next(w, a)) <==> Waiting(w) && !Echoes(w, a))
  {
    var again := Answer(w.t, w.stale[0], a.scrollback, a.snapshot).2;
    if again.None? {
      assert w.current + Asked(again) == w.current;
    }
  }

  lemma FreshAnswer(w: Wire, a: Action)
    requires InStep(w) && a.Answered? && Valid(a.snapshot) && |w.stale| == 0 && |w.current| > 0
    ensures InStep(Next(w, a))
  {
    assert w.t.request.Some? && w.current[1..] == [];
    var again := Answer(w.t, w.current[0], a.scrollback, a.snapshot).2;
    assert [] + Asked(again) == Asked(again);
  }

  ghost predicate IsRun(states: seq<Wire>, actions: seq<Action>) {
    && |states| == |actions| + 1
    && states[0].stale == [] && states[0].current == [] && states[0].t == Live(states[0].t)
    && (forall i | 0 <= i < |actions| :: states[i + 1] == Next(states[i], actions[i]))
    && (forall i | 0 <= i < |actions| :: FromWire(actions[i]))
  }

  /**
   In every state of a run without such an echo, whatever is lost: at most one request since the last reset
   is unanswered, it is the pending one, and when none is pending the screen is live without a target or
   shows its target.
   */
  lemma {:induction false} OneRequestAtATime(states: seq<Wire>, actions: seq<Action>, n: nat)
    requires IsRun(states, actions) && n <= |actions| && forall i | 0 <= i < n :: !Breaks(states[i], actions[i])
    ensures |states[n].current| <= 1 && OneAtATime(states[n])
  {
    if n > 0 {
      OneRequestAtATime(states, actions, n - 1);
      StepExactly(states[n - 1], actions[n - 1]);
    }
  }

  /** Nothing has happened between two states of a run that lets go of a request whose answer is lost. */
  predicate NothingSettles(states: seq<Wire>, actions: seq<Action>, m: nat, n: nat)
    requires m <= n <= |actions| < |states|
  {
    forall i | m <= i < n :: !actions[i].Reset? && !Echoes(states[i], actions[i])
  }

  /**
   A request whose answer was lost stays pending, the view where it was or live and nothing asked for, for
   as long as there is neither a reset nor an echo; the first of those puts the client in step again.
   */
  lemma {:induction false} LostAnswerWaits(states: seq<Wire>, actions: seq<Action>, m: nat, n: nat)
    requires IsRun(states, actions) && m <= n <= |actions| && Waiting(states[m])
             && NothingSettles(states, actions, m, n)
    ensures Waiting(states[n]) && states[n].t.request == states[m].t.request
    ensures states[n].t.scrollback in [None, states[m].t.scrollback]
    ensures n < |actions| && (actions[n].Reset? || Echoes(states[n], actions[n])) ==> InStep(states[n + 1])
    decreases n
  {
    if m < n {
      LostAnswerWaits(states, actions, m, n - 1);
      StepExactly(states[n - 1], actions[n - 1]);
    }
    if n < |actions| {
      StepExactly(states[n], actions[n]);
    }
  }

  /**
   A viewport queued in place of older frames takes the place of answers to earlier requests only, which are
   not missed.
   */
  lemma OlderAnswersAreNotMissed(w: Wire, i: nat, j: nat)
    requires InStep(w) && j < |w.stale + w.current|
    ensures InStep(Next(w, Evicted(i, j))) && Next(w, Evicted(i, j)).current == w.current
  {
  }

  /**
   The reset that settles things: a valid full frame newer than what the client has, as the one behind an
   eviction is.
   */
  lemma FullFrameResets(c: ClientState, agent: AgentId, sequence: u64, snapshot: TerminalSnapshot)
    requires Valid(snapshot) && agent in c.terminals
    ensures var was, next := c.terminals[agent], ApplyFull(c, agent, sequence, snapshot).0;
            && agent in next.terminals
            && if was.tracker.sequence.Some? && sequence <= was.tracker.sequence.value then next.terminals[agent] == was
               else
                 next.terminals[agent] ==
                   Live(was.(snapshot := snapshot, tracker := TerminalFrameTracker(Some(sequence))))
  {
  }

  /** The step that breaks it does so for good reason: until the next reset, a second request may then be unanswered. */
  lemma StaleAnswerAllowsSecond(w: Wire, scrollback: nat, snapshot: TerminalSnapshot, rows: int)
    requires InStep(w) && |w.stale| > 0 && w.t.request == Some(w.stale[0]) && w.t.target == w.t.request
    requires scrollback == 0 && 0 < rows <= MAX_USIZE
    ensures Breaks(w, Answered(scrollback, snapshot))
    ensures Next(Next(w, Answered(scrollback, snapshot)), Scroll(rows)).current == [w.stale[0], rows]
  {
  }

  lemma Extend(states: seq<Wire>, actions: seq<Action>, a: Action) returns (states': seq<Wire>, actions': seq<Action>)
    requires IsRun(states, actions) && FromWire(a)
    ensures IsRun(states', actions') && actions' == actions + [a]
    ensures states' == states + [Next(states[|actions|], a)]
  {
    states', actions' := states + [Next(states[|actions|], a)], actions + [a];
  }

  lemma FirstScroll(w: Wire, n: nat)
    requires w.t == Live(w.t) && w.current == [] && 0 < n <= MAX_USIZE
    ensures Next(w, Scroll(n)) == Wire(w.t.(target := Some(n), request := Some(n)), w.stale, [n])
  {
  }

  /** Scroll somewhere, have the screen replaced, scroll there again: two requests with one number are under way. */
  lemma TwoUnderWay(t: CachedTerminal, n: nat, snapshot: TerminalSnapshot, tracker: TerminalFrameTracker)
    returns (states: seq<Wire>, actions: seq<Action>)
    requires 0 < n <= MAX_USIZE
    ensures IsRun(states, actions) && states[0] == Wire(Live(t), [], [])
    ensures actions == [Scroll(n), Reset(snapshot, tracker), Scroll(n)]
    ensures states[3].stale == [n] && states[3].current == [n]
    ensures states[3].t == Live(states[3].t).(target := Some(n), request := Some(n))
  {
    var start := Wire(Live(t), [], []);
    var scrolled := Next(start, Scroll(n));
    FirstScroll(start, n);
    FirstScroll(Next(scrolled, Reset(snapshot, tracker)), n);
    states, actions := [start], [];
    states, actions := Extend(states, actions, Scroll(n));
    states, actions := Extend(states, actions, Reset(snapshot, tracker));
    assert [] + [n] == [n];
    states, actions := Extend(states, actions, Scroll(n));
  }

  /**
   Such a run exists for every terminal and every target. The first answer settles the second request,
   whose own answer is still to come when the next scroll asks again.
   */
  lemma StaleAnswerHappens(
    t: CachedTerminal, n: nat, rows: int, snapshot: TerminalSnapshot, tracker: TerminalFrameTracker,
    wire: W.WireSnapshot)
    returns (states: seq<Wire>, actions: seq<Action>)
    requires 0 < n <= MAX_USIZE && 0 < rows <= MAX_USIZE && W.Decode(wire).Ok?
    ensures IsRun(states, actions) && states[0] == Wire(Live(t), [], [])
    ensures actions == [Scroll(n), Reset(snapshot, tracker), Scroll(n), Answered(0, W.Decode(wire).value), Scroll(rows)]
    ensures Breaks(states[3], actions[3]) && states[5].current == [n, rows]
  {
    var screen := W.Decode(wire).value;
    states, actions := TwoUnderWay(t, n, snapshot, tracker);
    StaleAnswerAllowsSecond(states[3], 0, screen, rows);
    states, actions := Extend(states, actions, Answered(0, screen));
    states, actions := Extend(states, actions, Scroll(rows));
  }

  /** And so does one in which an answer is lost: whatever the user scrolls to then, the client does not ask for it. */
  lemma AnswerIsLost(t: CachedTerminal, n: nat, rows: int) returns (states: seq<Wire>, actions: seq<Action>)
    requires 0 < n <= MAX_USIZE
    ensures IsRun(states, actions) && states[0] == Wire(Live(t), [], [])
    ensures actions == [Scroll(n), Evicted(0, 1), Scroll(rows)] && Loses(states[1], actions[1])
    ensures Waiting(states[3]) && states[3].t.request == Some(n) && states[3].stale == []
    ensures states[3].t.target == if Moved(n, rows) == 0 then None else Some(Moved(n, rows))
  {
    states, actions := [Wire(Live(t), [], [])], [];
    states, actions := Extend(states, actions, Scroll(n));
    states, actions := Extend(states, actions, Evicted(0, 1));
    states, actions := Extend(states, actions, Scroll(rows));
    assert [] + [n] == [n];
  }

  // ---------------------------------------------------------------------------------------------
  // Where it ends
  // ---------------------------------------------------------------------------------------------

  /** The next answer, the server showing `position(n)` and `screen(n)` for a request of `n`. */
  function AnswerNext(w: Wire, position: nat -> nat, screen: nat -> TerminalSnapshot): Wire {
    var pending := w.stale + w.current;
    if |pending| == 0 then w else Next(w, Answered(position(pending[0]), screen(pending[0])))
  }

  /** The wire after so many answers. */
  function Drained(w: Wire, position: nat -> nat, screen: nat -> TerminalSnapshot, answers: nat): Wire
    decreases answers
  {
    if answers == 0 then w else Drained(AnswerNext(w, position, screen), position, screen, answers - 1)
  }

  /** No answer still to come from before the last reset carries the number of the pending request. */
  predicate NoEcho(w: Wire) {
    w.t.request.Some? ==> w.t.request.value !in w.stale
  }

  /** What the view will be once nothing is pending: live, or the newest target as the server shows it. */
  predicate ShowsNewest(
    target: Option<nat>, end: CachedTerminal, position: nat -> nat, screen: nat -> TerminalSnapshot)
  {
    && end.request.None? && Settled(end)
    && match target
       case None => end.scrollback.None? && end.target.None?
       case Some(n) =>
         if position(n) == 0 then end.scrollback.None? && end.target.None?
         else end.scrollback == Some(ScrollbackView(screen(n), position(n)))
  }

  /** A stale answer without the pending request's number is not even looked at. */
  lemma StaleAnswersPass(w: Wire, position: nat -> nat, screen: nat -> TerminalSnapshot)
    requires InStep(w) && NoEcho(w) && |w.stale| > 0
    ensures AnswerNext(w, position, screen) == w.(stale := w.stale[1..])
  {
    assert (w.stale + w.current)[0] == w.stale[0] && w.stale[0] in w.stale;
    assert w.current + [] == w.current;
  }

  lemma FreshAnswersSettle(w: Wire, position: nat -> nat, screen: nat -> TerminalSnapshot)
    requires InStep(w) && w.stale == [] && forall n :: Valid(screen(n))
    ensures var next := AnswerNext(w, position, screen);
            && InStep(next) && next.stale == []
            && (w.t.request.None? ==> next == w)
            && (w.t.request.Some? && w.t.target != w.t.request ==> next.t.request == next.t.target == w.t.target)
            && (w.t.request.Some? && (w.t.target == w.t.request || w.t.target.None?) ==>
               ShowsNewest(w.t.target, next.t, position, screen))
  {
    assert w.stale + w.current == w.current;
    if w.t.request.Some? {
      var n := w.t.request.value;
      assert w.current == [n] && [n][1..] == [];
      var again := Answer(w.t, n, position(n), screen(n)).2;
      assert [] + Asked(again) == Asked(again);
    }
  }

  lemma {:induction false} DrainedStays(w: Wire, position: nat -> nat, screen: nat -> TerminalSnapshot, answers: nat)
    requires w.stale == [] && w.current == []
    ensures Drained(w, position, screen, answers) == w
    decreases answers
  {
    if answers > 0 {
      DrainedStays(w, position, screen, answers - 1);
    }
  }

  lemma TwoAnswersSettle(w: Wire, position: nat -> nat, screen: nat -> TerminalSnapshot, answers: nat)
    requires InStep(w) && w.stale == [] && w.t.request.Some? && answers >= 2 && forall n :: Valid(screen(n))
    ensures var end := Drained(w, position, screen, answers);
            end.stale == [] && end.current == [] && ShowsNewest(w.t.target, end.t, position, screen)
  {
    var next := AnswerNext(w, position, screen);
    var last := AnswerNext(next, position, screen);
    FreshAnswersSettle(w, position, screen);
    FreshAnswersSettle(next, position, screen);
    assert Drained(w, position, screen, answers) == Drained(next, position, screen, answers - 1) ==
      Drained(last, position, screen, answers - 2);
    DrainedStays(last, position, screen, answers - 2);
  }

  /**
   Once everything on its way has been answered, the stale requests and two more at most, the client is
   settled; and what it shows for whatever was scrolled meanwhile is the newest target.
   */
  lemma {:induction false} NewestTargetIsShown(
    w: Wire, position: nat -> nat, screen: nat -> TerminalSnapshot, answers: nat)
    requires InStep(w) && NoEcho(w) && answers >= |w.stale| + 2 && forall n :: Valid(screen(n))
    ensures var end := Drained(w, position, screen, answers);
            && end.stale == [] && end.current == [] && Settled(end.t)
            && (w.t.request.None? ==> end.t == w.t)
            && (w.t.request.Some? ==> ShowsNewest(w.t.target, end.t, position, screen))
    decreases |w.stale|
  {
    if |w.stale| > 0 {
      StaleAnswersPass(w, position, screen);
      var next := w.(stale := w.stale[1..]);
      assert forall n | n in next.stale :: n in w.stale;
      NewestTargetIsShown(next, position, screen, answers - 1);
    } else if w.t.request.Some? {
      TwoAnswersSettle(w, position, screen, answers);
    } else {
      DrainedStays(w, position, screen, answers);
    }
  }
}
