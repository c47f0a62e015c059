/**
 Numbered frames as they cross the wire: screens in their wire form, and each text of a diff as a string.
 With the texts the emulator gives, in canonical form, every frame arrives as it was made, so what is
 proved of the frames the server makes holds for the frames the client decodes.
 */
module EncodedFrames {
  import opened Basics
  import opened TerminalModel
  import opened Frames
  import opened WireCodec
  import opened WireCodecProofs
  import R = RemoteAgents
  import S = ReplicationSafety

  function CanonicalPatches(patches: seq<CellPatch>): seq<CellPatch> {
    seq(|patches|, i requires 0 <= i < |patches| => CellPatch(patches[i].index, Canonical(patches[i].cell)))
  }

  /** Encoding and decoding one message. */
  function OverTheWire(m: Message): Result<Message, DecodeError>
    requires m.TerminalFull? ==> Valid(m.snapshot)
    requires m.TerminalViewport? ==> Valid(m.snapshot)
  {
    match m
    case TerminalFull(agent, sequence, snapshot) =>
      (match Decode(Encode(snapshot))
       case Ok(decoded) => Ok(TerminalFull(agent, sequence, decoded))
       case Err(error) => Err(error))
    case TerminalViewport(agent, requested, scrollback, snapshot) =>
      (match Decode(Encode(snapshot))
       case Ok(decoded) => Ok(TerminalViewport(agent, requested, scrollback, decoded))
       case Err(error) => Err(error))
    case TerminalDiff(agent, base, sequence, diff) =>
      Ok(TerminalDiff(agent, base, sequence, diff.(cells := CanonicalPatches(diff.cells))))
    case _ => Ok(m)
  }

  predicate CanonicalMessage(m: Message) {
    match m
    case TerminalFull(_, _, snapshot) => CanonicalTexts(snapshot.cells)
    case TerminalViewport(_, _, _, snapshot) => CanonicalTexts(snapshot.cells)
    case TerminalDiff(_, _, _, diff) => forall i | 0 <= i < |diff.cells| :: CanonicalText(diff.cells[i].cell.contents)
    case _ => true
  }

  /** A message arrives as it was sent exactly if the texts it carries are canonical. */
  lemma SurvivesExactly(m: Message)
    requires m.TerminalFull? ==> Valid(m.snapshot)
    requires m.TerminalViewport? ==> Valid(m.snapshot)
    ensures OverTheWire(m) == Ok(m) <==> CanonicalMessage(m)
  {
    match m {
      case TerminalFull(_, _, snapshot) => RoundTrip(snapshot);
      case TerminalViewport(_, _, _, snapshot) => RoundTrip(snapshot);
      case TerminalDiff(_, _, _, diff) =>
        var sent := CanonicalPatches(diff.cells);
        if CanonicalMessage(m) {
          assert sent == diff.cells;
        } else {
          var i :| 0 <= i < |diff.cells| && !CanonicalText(diff.cells[i].cell.contents);
          assert sent[i].cell.contents != diff.cells[i].cell.contents;
        }
      case _ =>
    }
  }

  lemma {:induction false} PatchesCarryCells(before: seq<TerminalCell>, next: seq<TerminalCell>, from: nat)
    requires |before| == |next| && from <= |next| && |next| <= TWO_TO_THE_32
    ensures forall p | p in CellPatches(before, next, from) :: p.cell in next
    decreases |next| - from
  {
    if from < |next| {
      PatchesCarryCells(before, next, from + 1);
    }
  }

  // ---------------------------------------------------------------------------------------------
  // Replication with frames encoded on the way
  // ---------------------------------------------------------------------------------------------

  /** A numbered frame is handled as decoded; one that does not decode is not handled at all. */
  ghost function NextEncoded(s: S.System, a: S.Action): S.System {
    if a.Deliver? && IsNumbered(a.m) && (a.m.TerminalFull? ==> Valid(a.m.snapshot)) && S.Enabled(s, a)
      && R.Sound(s.client) then
      var arrived := OverTheWire(a.m);
      if arrived.Ok? then s.(client := R.Receive(s.client, arrived.value).0) else s
    else S.Next(s, a)
  }

  /** Every screen given a number has canonical texts. */
  ghost predicate HistoryCanonical(s: S.System) {
    forall key | key in s.history :: CanonicalTexts(s.history[key].cells)
  }

  lemma HonestFrameIsCanonical(s: S.System, m: Message)
    requires S.ServerInv(s) && HistoryCanonical(s) && m in s.sent
    ensures CanonicalMessage(m) && (m.TerminalFull? ==> Valid(m.snapshot))
  {
    assert S.HonestFrame(s.history, m);
    if m.TerminalDiff? {
      var before, next := s.history[(m.agent, m.base)], s.history[(m.agent, m.sequence)];
      CellCountFits(next.state.size);
      PatchesCarryCells(before.cells, next.cells, 0);
      assert forall i | 0 <= i < |m.diff.cells| :: m.diff.cells[i] in m.diff.cells;
    }
  }

  lemma EncodedStep(s: S.System, a: S.Action)
    requires S.Inv(s) && HistoryCanonical(s)
    requires a.Emit? ==> CanonicalTexts(a.terminal.cells)
    ensures NextEncoded(s, a) == S.Next(s, a) && HistoryCanonical(S.Next(s, a))
  {
    if a.Deliver? && IsNumbered(a.m) && S.Enabled(s, a) {
      HonestFrameIsCanonical(s, a.m);
      SurvivesExactly(a.m);
    }
  }

  ghost predicate IsEncodedRun(states: seq<S.System>, actions: seq<S.Action>) {
    && |states| == |actions| + 1 && states[0] == S.START
    && forall i | 0 <= i < |actions| :: states[i + 1] == NextEncoded(states[i], actions[i])
  }

  ghost predicate DrawsCanonical(actions: seq<S.Action>) {
    forall i | 0 <= i < |actions| :: actions[i].Emit? ==> CanonicalTexts(actions[i].terminal.cells)
  }

  ghost predicate StepsPlainly(states: seq<S.System>, actions: seq<S.Action>, n: nat)
    requires n <= |actions| && |states| == |actions| + 1
  {
    forall i | 0 <= i < n :: states[i + 1] == S.Next(states[i], actions[i])
  }

  lemma {:induction false} EncodedSteps(states: seq<S.System>, actions: seq<S.Action>, n: nat)
    requires IsEncodedRun(states, actions) && DrawsCanonical(actions) && n <= |actions|
    ensures StepsPlainly(states, actions, n) && S.Inv(states[n]) && HistoryCanonical(states[n])
  {
    if n == 0 {
      S.RunKeepsInv([S.START], [], 0);
    } else {
      var m := n - 1;
      EncodedSteps(states, actions, m);
      assert states[m + 1] == NextEncoded(states[m], actions[m]);
      EncodedStep(states[m], actions[m]);
      S.StepKeepsInv(states[m], actions[m]);
      OneStepMore(states, actions, m, n);
    }
  }

  lemma OneStepMore(states: seq<S.System>, actions: seq<S.Action>, m: nat, n: nat)
    requires n <= |actions| && |states| == |actions| + 1 && m + 1 == n
    requires StepsPlainly(states, actions, m) && states[n] == S.Next(states[m], actions[m])
    ensures StepsPlainly(states, actions, n)
  {
    forall i | 0 <= i < n
      ensures states[i + 1] == S.Next(states[i], actions[i])
    {
      assert i == m || i < m;
    }
  }

  /**
   Main result: when the emulator draws screens with canonical texts, a run in which every frame crosses
   the wire encoded is a run of the server and client without a wire in between; so no screen shown under
   a number is other than the one the server numbered.
   */
  lemma EncodedRunsAreRuns(states: seq<S.System>, actions: seq<S.Action>)
    requires IsEncodedRun(states, actions) && DrawsCanonical(actions)
    ensures S.IsRun(states, actions)
  {
    EncodedSteps(states, actions, |actions|);
  }

  lemma EncodedReplicationIsSafe(states: seq<S.System>, actions: seq<S.Action>, i: nat, agent: AgentId)
    requires IsEncodedRun(states, actions) && DrawsCanonical(actions) && i < |states|
    requires agent in states[i].client.terminals && states[i].client.terminals[agent].tracker.sequence.Some?
    ensures var t := states[i].client.terminals[agent];
            && (agent, t.tracker.sequence.value) in states[i].history
            && t.snapshot == states[i].history[(agent, t.tracker.sequence.value)]
  {
    EncodedRunsAreRuns(states, actions);
    S.ReplicationIsSafe(states, actions, i, agent);
  }
}
