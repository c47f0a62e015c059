/**
 The numbers of one agent's frames on their way to a client, and what following them leads to.

 A client that holds number `t` (or none) follows a list of notes: a full frame jumps to its number if
 that is newer, a diff steps from its base, and a departure forgets the agent.
 */
module FrameNumbers {
  import opened Basics
  import opened Frames

  datatype Note = FullNote(n: u64) | DiffNote(base: u64, n: u64) | GoneNote

  function NotesOf(m: Message, agent: AgentId): seq<Note> {
    match m
    case TerminalFull(a, n, _) => if a == agent then [FullNote(n)] else []
    case TerminalDiff(a, base, n, _) => if a == agent then [DiffNote(base, n)] else []
    case AgentGone(a) => if a == agent then [GoneNote] else []
    case _ => []
  }

  function Notes(messages: seq<Message>, agent: AgentId): seq<Note> {
    if |messages| == 0 then [] else NotesOf(messages[0], agent) + Notes(messages[1..], agent)
  }

  lemma {:induction false} NotesConcat(a: seq<Message>, b: seq<Message>, agent: AgentId)
    ensures Notes(a + b, agent) == Notes(a, agent) + Notes(b, agent)
  {
    if |a| == 0 {
      assert a + b == b;
    } else {
      assert (a + b)[1..] == a[1..] + b;
      NotesConcat(a[1..], b, agent);
    }
  }

  lemma NotesSingle(m: Message, agent: AgentId)
    ensures Notes([m], agent) == NotesOf(m, agent)
  {
    assert Notes([m], agent) == NotesOf(m, agent) + Notes([], agent);
  }

  // ---------------------------------------------------------------------------------------------
  // Following notes
  // ---------------------------------------------------------------------------------------------

  function FollowOne(t: Option<u64>, note: Note): Option<u64> {
    match note
    case FullNote(n) => if t.Some? && n <= t.value then t else Some(n)
    case DiffNote(base, n) => if t.Some? && base == t.value && n > t.value then Some(n) else t
    case GoneNote => None
  }

  /** A note that is followed or already known; only an unknown base makes a gap. */
  predicate FitsOne(t: Option<u64>, note: Note) {
    match note
    case FullNote(_) => true
    case DiffNote(base, n) => t.Some? && (n <= t.value || base == t.value)
    case GoneNote => true
  }

  function Follow(t: Option<u64>, notes: seq<Note>): Option<u64>
    decreases |notes|
  {
    if |notes| == 0 then t else Follow(FollowOne(t, notes[0]), notes[1..])
  }

  /** No gap anywhere along the way. */
  predicate Fits(t: Option<u64>, notes: seq<Note>)
    decreases |notes|
  {
    |notes| > 0 ==> FitsOne(t, notes[0]) && Fits(FollowOne(t, notes[0]), notes[1..])
  }

  lemma {:induction false} FollowConcat(t: Option<u64>, a: seq<Note>, b: seq<Note>)
    ensures Follow(t, a + b) == Follow(Follow(t, a), b)
    ensures Fits(t, a + b) <==> Fits(t, a) && Fits(Follow(t, a), b)
    decreases |a|
  {
    if |a| == 0 {
      assert a + b == b;
    } else {
      assert (a + b)[1..] == a[1..] + b;
      FollowConcat(FollowOne(t, a[0]), a[1..], b);
    }
  }

  predicate Numbered(note: Note) {
    note != GoneNote
  }

  predicate AllNumbered(notes: seq<Note>) {
    forall i | 0 <= i < |notes| :: Numbered(notes[i])
  }

  lemma AllNumberedConcat(a: seq<Note>, b: seq<Note>)
    ensures AllNumbered(a + b) <==> AllNumbered(a) && AllNumbered(b)
  {
    assert forall i | 0 <= i < |a| :: a[i] == (a + b)[i];
    assert forall i | 0 <= i < |b| :: b[i] == (a + b)[|a| + i];
  }

  /** All notes are numbered, with numbers up to `k`. */
  predicate UpTo(notes: seq<Note>, k: nat) {
    forall i | 0 <= i < |notes| :: Numbered(notes[i]) && notes[i].n <= k
  }

  predicate Holds(notes: seq<Note>, n: nat) {
    exists i | 0 <= i < |notes| :: Numbered(notes[i]) && notes[i].n == n
  }

  /** No number comes twice, and the number held comes no more. */
  predicate Distinct(t: Option<u64>, notes: seq<Note>) {
    && (forall i, j | 0 <= i < j < |notes| :: Numbered(notes[i]) && Numbered(notes[j]) ==> notes[i].n != notes[j].n)
    && (t.Some? ==> !Holds(notes, t.value))
  }

  /** One arrives at a number one held or was given. */
  lemma {:induction false} ArrivesAtKnownNumber(t: Option<u64>, notes: seq<Note>)
    ensures var end := Follow(t, notes);
            end.Some? ==> end == t || Holds(notes, end.value)
    decreases |notes|
  {
    if |notes| > 0 {
      ArrivesAtKnownNumber(FollowOne(t, notes[0]), notes[1..]);
      var end := Follow(t, notes);
      if end.Some? && Holds(notes[1..], end.value) {
        var i :| 0 <= i < |notes[1..]| && Numbered(notes[1..][i]) && notes[1..][i].n == end.value;
        assert notes[i + 1] == notes[1..][i];
      }
    }
  }

  lemma {:induction false} StaysBelow(t: Option<u64>, notes: seq<Note>, k: nat)
    requires UpTo(notes, k) && (t.Some? ==> t.value <= k)
    ensures Follow(t, notes).Some? ==> Follow(t, notes).value <= k
  {
    ArrivesAtKnownNumber(t, notes);
  }

  /** Notes no newer than the number held change nothing. */
  lemma {:induction false} StaleNotesChangeNothing(x: u64, notes: seq<Note>)
    requires UpTo(notes, x)
    ensures Follow(Some(x), notes) == Some(x) && Fits(Some(x), notes)
    decreases |notes|
  {
    if |notes| > 0 {
      assert FollowOne(Some(x), notes[0]) == Some(x);
      StaleNotesChangeNothing(x, notes[1..]);
    }
  }

  // ---------------------------------------------------------------------------------------------
  // A healthy stream
  // ---------------------------------------------------------------------------------------------

  /**
   The notes still to come for a live agent whose last number is `k`. Following them never meets a gap,
   and if the server holds a basis for the agent it ends at that basis, `k`.
   */
  ghost predicate Healthy(t: Option<u64>, notes: seq<Note>, k: u64, basis: bool) {
    && (t.Some? ==> t.value <= k)
    && UpTo(notes, k)
    && Distinct(t, notes)
    && Fits(t, notes)
    && (basis ==> Follow(t, notes) == Some(k))
  }

  lemma HealthyAppendFull(t: Option<u64>, notes: seq<Note>, k: u64, basis: bool)
    requires Healthy(t, notes, k, basis) && k < MAX_U64
    ensures Healthy(t, notes + [FullNote(k + 1)], k + 1, true)
  {
    FollowConcat(t, notes, [FullNote(k + 1)]);
    StaysBelow(t, notes, k);
    assert Follow(Follow(t, notes), [FullNote(k + 1)]) == FollowOne(Follow(t, notes), FullNote(k + 1));
  }

  lemma HealthyAppendDiff(t: Option<u64>, notes: seq<Note>, k: u64)
    requires Healthy(t, notes, k, true) && k < MAX_U64
    ensures Healthy(t, notes + [DiffNote(k, k + 1)], k + 1, true)
  {
    FollowConcat(t, notes, [DiffNote(k, k + 1)]);
    assert Follow(Some(k), [DiffNote(k, k + 1)]) == FollowOne(Some(k), DiffNote(k, k + 1));
    assert Fits(Some(k), [DiffNote(k, k + 1)]);
  }

  lemma HealthyDeliver(t: Option<u64>, note: Note, rest: seq<Note>, k: u64, basis: bool)
    requires Healthy(t, [note] + rest, k, basis)
    ensures Healthy(FollowOne(t, note), rest, k, basis) && FitsOne(t, note)
  {
    var notes := [note] + rest;
    assert notes[0] == note && notes[1..] == rest;
    assert forall i | 0 <= i < |rest| :: rest[i] == notes[i + 1];
  }

  /** The queued notes are evicted and a new full frame is put in their place, ahead of older notes not yet queued. */
  lemma HealthyReplace(t: Option<u64>, wire: seq<Note>, queue: seq<Note>, unsent: seq<Note>, k: u64, basis: bool)
    requires Healthy(t, wire + queue + unsent, k, basis) && k < MAX_U64
    ensures Healthy(t, wire + [FullNote(k + 1)] + unsent, k + 1, true)
  {
    var before := wire + queue + unsent;
    assert forall i | 0 <= i < |wire| :: wire[i] == before[i];
    assert forall i | 0 <= i < |unsent| :: unsent[i] == before[|wire| + |queue| + i];
    FollowConcat(t, wire + queue, unsent);
    FollowConcat(t, wire, queue);
    ReplacementLeadsHome(t, wire, unsent, k);
    HealthyReplaceDistinct(t, wire, queue, unsent, k);
  }

  lemma ReplacementLeadsHome(t: Option<u64>, wire: seq<Note>, unsent: seq<Note>, k: u64)
    requires k < MAX_U64 && (t.Some? ==> t.value <= k)
    requires UpTo(wire, k) && UpTo(unsent, k) && Fits(t, wire)
    ensures Follow(t, wire + [FullNote(k + 1)] + unsent) == Some(k + 1)
    ensures Fits(t, wire + [FullNote(k + 1)] + unsent)
    ensures UpTo(wire + [FullNote(k + 1)] + unsent, k + 1)
  {
    var full := [FullNote(k + 1)];
    FollowConcat(t, wire + full, unsent);
    FollowConcat(t, wire, full);
    StaysBelow(t, wire, k);
    var x := Follow(t, wire);
    assert Follow(x, full) == FollowOne(x, full[0]) == Some(k + 1);
    assert Fits(x, full);
    StaleNotesChangeNothing(k + 1, unsent);
  }

  lemma HealthyReplaceDistinct(t: Option<u64>, wire: seq<Note>, queue: seq<Note>, unsent: seq<Note>, k: u64)
    requires UpTo(wire + queue + unsent, k) && Distinct(t, wire + queue + unsent) && k < MAX_U64
    requires t.Some? ==> t.value <= k
    ensures Distinct(t, wire + [FullNote(k + 1)] + unsent)
  {
    var before, after := wire + queue + unsent, wire + [FullNote(k + 1)] + unsent;
    forall i, j | 0 <= i < j < |after| && Numbered(after[i]) && Numbered(after[j])
      ensures after[i].n != after[j].n
    {
      var i' := if i < |wire| then i else i - 1 + |queue|;
      var j' := if j < |wire| then j else j - 1 + |queue|;
      assert i != |wire| ==> after[i] == before[i'];
      assert j != |wire| ==> after[j] == before[j'];
    }
    forall i | 0 <= i < |after| && Numbered(after[i])
      ensures t.Some? ==> after[i].n != t.value
    {
      if i != |wire| {
        assert after[i] == before[if i < |wire| then i else i - 1 + |queue|];
      }
    }
  }

  /** The same when the first of the notes not yet queued is dropped, provided it is the only one. */
  lemma HealthyReplaceFirst(
    t: Option<u64>, wire: seq<Note>, queue: seq<Note>, head: seq<Note>, rest: seq<Note>, k: u64, n: u64, basis: bool)
    requires Healthy(t, wire + queue + (head + rest), k, basis) && n - 1 == k
    requires head == [] || rest == []
    ensures Healthy(t, wire + [FullNote(n)] + rest, n, true)
  {
    HealthyReplace(t, wire, queue, head + rest, k, basis);
    if head == [] {
      assert head + rest == rest;
    } else {
      var before := wire + queue + (head + rest);
      assert forall i | 0 <= i < |wire| :: wire[i] == before[i];
      assert head + rest == head;
      ReplacedAlone(t, wire, head, k);
      assert wire + [FullNote(k + 1)] + [] == wire + [FullNote(k + 1)];
    }
  }

  /** Dropping the last, older note changes nothing about the replacement. */
  lemma ReplacedAlone(t: Option<u64>, wire: seq<Note>, head: seq<Note>, k: u64)
    requires k < MAX_U64 && Healthy(t, wire + [FullNote(k + 1)] + head, k + 1, true)
    requires t.Some? ==> t.value <= k
    requires UpTo(wire, k)
    ensures Healthy(t, wire + [FullNote(k + 1)], k + 1, true)
  {
    var long, short := wire + [FullNote(k + 1)] + head, wire + [FullNote(k + 1)];
    assert forall i | 0 <= i < |short| :: short[i] == long[i];
    FollowConcat(t, short, head);
    FollowConcat(t, wire, [FullNote(k + 1)]);
    StaysBelow(t, wire, k);
    assert Follow(Follow(t, wire), [FullNote(k + 1)]) == FollowOne(Follow(t, wire), FullNote(k + 1));
  }

  /**
   The queued notes are evicted and nothing new is made: the pushed note alone, an older full frame or
   none at all, takes their place. The stream stays healthy exactly when the evicted notes do not
   include the newest number of an agent with a basis.
   */
  lemma HealthyEvict(t: Option<u64>, wire: seq<Note>, queue: seq<Note>, pushed: seq<Note>, k: u64, basis: bool)
    requires Healthy(t, wire + queue + pushed, k, basis)
    requires |pushed| == 0 || (|pushed| == 1 && pushed[0].FullNote?)
    ensures !(basis && Holds(queue, k)) ==> Healthy(t, wire + pushed, k, basis)
    ensures basis && Holds(queue, k) ==> Follow(t, wire + pushed) != Some(k)
  {
    var before, after := wire + queue + pushed, wire + pushed;
    assert forall i | 0 <= i < |wire| :: wire[i] == before[i];
    assert forall i | 0 <= i < |queue| :: queue[i] == before[|wire| + i];
    assert forall i | 0 <= i < |pushed| :: pushed[i] == before[|wire| + |queue| + i];
    FollowConcat(t, wire + queue, pushed);
    FollowConcat(t, wire, queue);
    FollowConcat(t, wire, pushed);
    EvictDistinct(t, wire, queue, pushed);
    ArrivesAtKnownNumber(t, after);
    if basis && Holds(queue, k) {
      EvictLosesNewest(t, wire, queue, pushed, k);
    } else if basis {
      EvictKeepsNewest(t, wire, queue, pushed, k);
    }
  }

  /** No number comes twice, so the newest one is gone with the queue. */
  lemma EvictLosesNewest(t: Option<u64>, wire: seq<Note>, queue: seq<Note>, pushed: seq<Note>, k: u64)
    requires Distinct(t, wire + queue + pushed) && Holds(queue, k)
    ensures !Holds(wire + pushed, k) && t != Some(k)
  {
    var before, after := wire + queue + pushed, wire + pushed;
    var q :| 0 <= q < |queue| && Numbered(queue[q]) && queue[q].n == k;
    assert before[|wire| + q] == queue[q];
    forall i | 0 <= i < |after| && Numbered(after[i])
      ensures after[i].n != k
    {
      assert after[i] == before[if i < |wire| then i else i + |queue|];
    }
  }

  lemma EvictDistinct(t: Option<u64>, wire: seq<Note>, queue: seq<Note>, pushed: seq<Note>)
    requires Distinct(t, wire + queue + pushed)
    ensures Distinct(t, wire + pushed)
  {
    var before, after := wire + queue + pushed, wire + pushed;
    forall i | 0 <= i < |after|
      ensures after[i] == before[if i < |wire| then i else i + |queue|]
    {
    }
  }

  lemma EvictKeepsNewest(t: Option<u64>, wire: seq<Note>, queue: seq<Note>, pushed: seq<Note>, k: u64)
    requires Healthy(t, wire + queue + pushed, k, true)
    requires |pushed| == 0 || (|pushed| == 1 && pushed[0].FullNote?)
    requires !Holds(queue, k)
    ensures Follow(t, wire + pushed) == Some(k)
  {
    var before := wire + queue + pushed;
    assert forall i | 0 <= i < |wire| :: wire[i] == before[i];
    assert forall i | 0 <= i < |pushed| :: pushed[i] == before[|wire| + |queue| + i];
    var x := Follow(t, wire);
    FollowConcat(t, wire + queue, pushed);
    FollowConcat(t, wire, queue);
    FollowConcat(t, wire, pushed);
    StaysBelow(t, wire, k);
    if Holds(pushed, k) {
      assert pushed == [FullNote(k)] && before[|wire| + |queue|] == FullNote(k);
      assert Holds(before, k) && t != Some(k);
      forall i | 0 <= i < |wire| && Numbered(wire[i])
        ensures wire[i].n != k
      {
        assert before[i] == wire[i];
      }
      ArrivesAtKnownNumber(t, wire);
      assert Follow(x, pushed) == FollowOne(x, FullNote(k));
    } else {
      ArrivesAtKnownNumber(x, queue + pushed);
      assert wire + queue + pushed == wire + (queue + pushed);
      FollowConcat(t, wire, queue + pushed);
      forall i | 0 <= i < |queue + pushed| && Numbered((queue + pushed)[i])
        ensures (queue + pushed)[i].n != k
      {
        assert (queue + pushed)[i] == if i < |queue| then queue[i] else pushed[i - |queue|];
      }
      StaleNotesChangeNothing(k, pushed);
    }
  }
}
