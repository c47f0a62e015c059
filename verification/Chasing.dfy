/**
 The numbers of one agent's frames again, on their way to a client that may have missed some. Besides the
 number the client holds, what counts is whether it has asked for a full frame.
 */
module Chasing {
  import opened Basics
  import opened FrameNumbers

  // ---------------------------------------------------------------------------------------------
  // Following numbers, and asking
  // ---------------------------------------------------------------------------------------------

  /** The number held of one agent, and whether a full frame of it has been asked for. */
  datatype Chaser = Chaser(t: Option<u64>, asking: bool)

  function ChaseOne(c: Chaser, note: Note): Chaser {
    match note
    case FullNote(n) => if c.t.Some? && n <= c.t.value then c else Chaser(Some(n), false)
    case DiffNote(_, _) => Chaser(FollowOne(c.t, note), c.asking || !FitsOne(c.t, note))
    case GoneNote => Chaser(None, false)
  }

  function Chase(c: Chaser, notes: seq<Note>): Chaser
    decreases |notes|
  {
    if |notes| == 0 then c else Chase(ChaseOne(c, notes[0]), notes[1..])
  }

  lemma {:induction false} ChaseFollows(c: Chaser, notes: seq<Note>)
    ensures Chase(c, notes).t == Follow(c.t, notes)
    decreases |notes|
  {
    if |notes| > 0 {
      ChaseFollows(ChaseOne(c, notes[0]), notes[1..]);
    }
  }

  lemma {:induction false} ChaseConcat(c: Chaser, a: seq<Note>, b: seq<Note>)
    ensures Chase(c, a + b) == Chase(Chase(c, a), b)
    decreases |a|
  {
    if |a| == 0 {
      assert a + b == b;
    } else {
      assert (a + b)[1..] == a[1..] + b;
      ChaseConcat(ChaseOne(c, a[0]), a[1..], b);
    }
  }

  lemma ChaseSingle(c: Chaser, note: Note)
    ensures Chase(c, [note]) == ChaseOne(c, note)
  {
    assert Chase(ChaseOne(c, note), []) == ChaseOne(c, note);
  }

  lemma {:induction false} StaleChase(c: Chaser, notes: seq<Note>, x: u64)
    requires c.t == Some(x) && UpTo(notes, x)
    ensures Chase(c, notes) == c
    decreases |notes|
  {
    if |notes| > 0 {
      assert ChaseOne(c, notes[0]) == c;
      StaleChase(c, notes[1..], x);
    }
  }

  /** Whoever ends up not asking does so the more if not asking at first. */
  lemma {:induction false} NotAskingStays(c: Chaser, notes: seq<Note>)
    requires !Chase(c, notes).asking
    ensures Chase(c.(asking := false), notes) == Chase(c, notes)
    decreases |notes|
  {
    if |notes| > 0 && ChaseOne(c, notes[0]) != ChaseOne(c.(asking := false), notes[0]) {
      assert ChaseOne(c.(asking := false), notes[0]) == ChaseOne(c, notes[0]).(asking := false)
          || ChaseOne(c.(asking := false), notes[0]) == c.(asking := false);
      NotAskingStays(ChaseOne(c, notes[0]), notes[1..]);
    }
  }

  // ---------------------------------------------------------------------------------------------
  // Streams with gaps
  // ---------------------------------------------------------------------------------------------

  predicate OneUp(notes: seq<Note>) {
    forall i | 0 <= i < |notes| && notes[i].DiffNote? :: notes[i].n - 1 == notes[i].base
  }

  /** The notes of a live agent whose last number is `k`, with or without gaps: no number twice, and diffs one up. */
  ghost predicate Plain(t: Option<u64>, notes: seq<Note>, k: u64) {
    (t.Some? ==> t.value <= k) && UpTo(notes, k) && Distinct(t, notes) && OneUp(notes)
  }

  lemma PlainAppend(t: Option<u64>, notes: seq<Note>, k: u64, note: Note)
    requires Plain(t, notes, k) && k < MAX_U64 && (note == FullNote(k + 1) || note == DiffNote(k, k + 1))
    ensures Plain(t, notes + [note], k + 1)
  {
    var more := notes + [note];
    assert forall i | 0 <= i < |notes| :: more[i] == notes[i];
  }

  lemma PlainDrop(t: Option<u64>, note: Note, rest: seq<Note>, k: u64)
    requires Plain(t, [note] + rest, k)
    ensures Plain(t, rest, k) && Plain(FollowOne(t, note), rest, k)
  {
    var notes := [note] + rest;
    assert notes[0] == note && forall i | 0 <= i < |rest| :: rest[i] == notes[i + 1];
  }

  lemma PlainEvict(t: Option<u64>, wire: seq<Note>, queue: seq<Note>, pushed: seq<Note>, k: u64)
    requires Plain(t, wire + queue + pushed, k)
    ensures Plain(t, wire + pushed, k)
    ensures UpTo(wire, k) && UpTo(queue, k) && UpTo(pushed, k)
  {
    var before, after := wire + queue + pushed, wire + pushed;
    EvictDistinct(t, wire, queue, pushed);
    assert forall i | 0 <= i < |wire| :: wire[i] == before[i];
    assert forall i | 0 <= i < |queue| :: queue[i] == before[|wire| + i];
    assert forall i | 0 <= i < |pushed| :: pushed[i] == before[|wire| + |queue| + i];
    assert forall i | 0 <= i < |after| :: after[i] == before[if i < |wire| then i else i + |queue|];
  }

  lemma PlainReplace(t: Option<u64>, wire: seq<Note>, queue: seq<Note>, rest: seq<Note>, k: u64)
    requires Plain(t, wire + queue + rest, k) && k < MAX_U64
    ensures Plain(t, wire + [FullNote(k + 1)] + rest, k + 1)
  {
    var after := wire + [FullNote(k + 1)] + rest;
    HealthyReplaceDistinct(t, wire, queue, rest, k);
    PlainEvict(t, wire, queue, rest, k);
    var kept := wire + rest;
    assert forall i | 0 <= i < |after| && i != |wire| :: after[i] == kept[if i < |wire| then i else i - 1];
  }

  // ---------------------------------------------------------------------------------------------
  // What leads home
  // ---------------------------------------------------------------------------------------------

  /** Following the notes ends at number `k`, with nothing asked for. */
  predicate LeadsHome(c: Chaser, notes: seq<Note>, k: u64) {
    Chase(c, notes) == Chaser(Some(k), false)
  }

  lemma FullLeadsHome(c: Chaser, notes: seq<Note>, k: u64)
    requires Plain(c.t, notes, k) && k < MAX_U64
    ensures LeadsHome(c, notes + [FullNote(k + 1)], k + 1)
  {
    ChaseConcat(c, notes, [FullNote(k + 1)]);
    ChaseFollows(c, notes);
    StaysBelow(c.t, notes, k);
    ChaseSingle(Chase(c, notes), FullNote(k + 1));
  }

  lemma DiffLeadsHome(c: Chaser, notes: seq<Note>, k: u64)
    requires LeadsHome(c, notes, k) && k < MAX_U64
    ensures LeadsHome(c, notes + [DiffNote(k, k + 1)], k + 1)
  {
    ChaseConcat(c, notes, [DiffNote(k, k + 1)]);
    ChaseSingle(Chase(c, notes), DiffNote(k, k + 1));
  }

  lemma InsertedLeadsHome(c: Chaser, wire: seq<Note>, queue: seq<Note>, rest: seq<Note>, k: u64)
    requires Plain(c.t, wire + queue + rest, k) && k < MAX_U64
    ensures LeadsHome(c, wire + [FullNote(k + 1)] + rest, k + 1)
  {
    PlainEvict(c.t, wire, queue, rest, k);
    PlainEvict(c.t, wire, queue + rest, [], k) by {
      assert wire + (queue + rest) + [] == wire + queue + rest;
    }
    assert wire + [] == wire;
    FullLeadsHome(c, wire, k);
    ChaseConcat(c, wire + [FullNote(k + 1)], rest);
    StaleChase(Chaser(Some(k + 1), false), rest, k + 1);
  }

  /**
   An eviction without a replacement, by a full frame or by something without a number, is harmless exactly
   if the newest number is not among those evicted.
   */
  lemma EvictExactly(c: Chaser, wire: seq<Note>, queue: seq<Note>, pushed: seq<Note>, k: u64)
    requires Plain(c.t, wire + queue + pushed, k) && LeadsHome(c, wire + queue + pushed, k)
    requires pushed == [] || (|pushed| == 1 && pushed[0].FullNote?)
    ensures LeadsHome(c, wire + pushed, k) <==> !Holds(queue, k)
  {
    PlainEvict(c.t, wire, queue, pushed, k);
    if Holds(queue, k) {
      EvictLosesNewest(c.t, wire, queue, pushed, k);
      ArrivesAtKnownNumber(c.t, wire + pushed);
      ChaseFollows(c, wire + pushed);
    } else {
      EvictKeepsHome(c, wire, queue, pushed, k);
    }
  }

  lemma EvictKeepsHome(c: Chaser, wire: seq<Note>, queue: seq<Note>, pushed: seq<Note>, k: u64)
    requires Plain(c.t, wire + queue + pushed, k) && LeadsHome(c, wire + queue + pushed, k)
    requires pushed == [] || (|pushed| == 1 && pushed[0].FullNote?)
    requires !Holds(queue, k)
    ensures LeadsHome(c, wire + pushed, k)
  {
    PlainEvict(c.t, wire, queue, pushed, k);
    ChaseConcat(c, wire, pushed);
    var x := Chase(c, wire);
    ChaseFollows(c, wire);
    if pushed == [FullNote(k)] {
      NewestIsPushed(c.t, wire, queue, pushed, k);
      ChaseSingle(x, FullNote(k));
    } else {
      ArrivesOnWire(c, wire, queue, pushed, k);
      StaleChase(x, queue + pushed, k);
      StaleChase(x, pushed, k);
    }
  }

  /** The newest number comes once: if it is yet to be pushed, it is not held before. */
  lemma NewestIsPushed(t: Option<u64>, wire: seq<Note>, queue: seq<Note>, pushed: seq<Note>, k: u64)
    requires Plain(t, wire + queue + pushed, k) && pushed == [FullNote(k)]
    ensures Follow(t, wire).Some? ==> Follow(t, wire).value < k
  {
    var notes := wire + queue + pushed;
    assert notes[|wire| + |queue|] == FullNote(k);
    assert forall i | 0 <= i < |wire| :: wire[i] == notes[i];
    assert Holds(notes, k);
    assert !Holds(wire, k);
    ArrivesAtKnownNumber(t, wire);
    StaysBelow(t, wire, k);
  }

  /** Otherwise, and if it is not in the queue either, the client has it after what is on the wire. */
  lemma ArrivesOnWire(c: Chaser, wire: seq<Note>, queue: seq<Note>, pushed: seq<Note>, k: u64)
    requires Plain(c.t, wire + queue + pushed, k) && LeadsHome(c, wire + queue + pushed, k)
    requires !Holds(queue, k) && (pushed == [] || (|pushed| == 1 && pushed[0].FullNote? && pushed[0].n != k))
    ensures UpTo(queue + pushed, k)
    ensures Chase(c, wire) == Chaser(Some(k), false)
  {
    PlainEvict(c.t, wire, queue, pushed, k);
    var rest, x := queue + pushed, Chase(c, wire);
    NotAmong(queue, pushed, k);
    assert wire + queue + pushed == wire + rest;
    ChaseConcat(c, wire, rest);
    ChaseFollows(x, rest);
    ArrivesAtKnownNumber(x.t, rest);
    StaleChase(x, rest, k);
  }

  lemma NotAmong(queue: seq<Note>, pushed: seq<Note>, k: u64)
    requires UpTo(queue, k) && UpTo(pushed, k) && !Holds(queue, k)
    requires pushed == [] || (|pushed| == 1 && pushed[0].FullNote? && pushed[0].n != k)
    ensures UpTo(queue + pushed, k) && !Holds(queue + pushed, k)
  {
    var rest := queue + pushed;
    assert forall i | 0 <= i < |rest| :: rest[i] == if i < |queue| then queue[i] else pushed[i - |queue|];
  }

  // ---------------------------------------------------------------------------------------------
  // A frame thrown away
  // ---------------------------------------------------------------------------------------------

  /** The client takes one of the full frames to come. */
  predicate TakesFull(c: Chaser, notes: seq<Note>)
    decreases |notes|
  {
    |notes| > 0 &&
    ((notes[0].FullNote? && (c.t.Some? ==> notes[0].n > c.t.value)) || TakesFull(ChaseOne(c, notes[0]), notes[1..]))
  }

  predicate AtMost(a: Option<u64>, b: Option<u64>) {
    a.Some? ==> b.Some? && a.value <= b.value
  }

  /** Whoever is behind catches up with the first full frame that the one ahead takes. */
  lemma {:induction false} CatchesUp(behind: Chaser, ahead: Chaser, notes: seq<Note>)
    requires AtMost(behind.t, ahead.t) && AllNumbered(notes) && OneUp(notes) && TakesFull(ahead, notes)
    ensures Chase(behind, notes) == Chase(ahead, notes)
    decreases |notes|
  {
    var rest := notes[1..];
    var b, a := ChaseOne(behind, notes[0]), ChaseOne(ahead, notes[0]);
    if a != b {
      assert Numbered(notes[0]);
      assert forall i | 0 <= i < |rest| :: rest[i] == notes[i + 1];
      CatchesUp(b, a, rest);
    }
  }

  /** Without one, whoever is behind stays behind: two numbers meet only in a number that both are given. */
  lemma {:induction false} StaysBehind(behind: Chaser, ahead: Chaser, notes: seq<Note>)
    requires ahead.t.Some? && behind.t != ahead.t && AllNumbered(notes)
    requires Distinct(behind.t, notes) && Distinct(ahead.t, notes) && !TakesFull(ahead, notes)
    ensures Chase(behind, notes).t != Chase(ahead, notes).t
    decreases |notes|
  {
    if |notes| > 0 {
      var note, rest := notes[0], notes[1..];
      assert Numbered(note);
      assert notes == [note] + rest && forall i | 0 <= i < |rest| :: rest[i] == notes[i + 1];
      StaysBehind(ChaseOne(behind, note), ChaseOne(ahead, note), rest);
    }
  }

  /**
   Throwing away the next frame is harmless exactly if the client would not have taken it, or will take a
   full frame later.
   */
  lemma DiscardExactly(c: Chaser, note: Note, rest: seq<Note>, k: u64)
    requires Plain(c.t, [note] + rest, k) && LeadsHome(c, [note] + rest, k)
    ensures LeadsHome(c, rest, k) <==> FollowOne(c.t, note) == c.t || TakesFull(ChaseOne(c, note), rest)
  {
    var next := ChaseOne(c, note);
    assert ([note] + rest)[0] == note && ([note] + rest)[1..] == rest;
    PlainDrop(c.t, note, rest, k);
    assert Numbered(([note] + rest)[0]);
    if FollowOne(c.t, note) == c.t {
      NotAskingStays(next, rest);
      if c.asking {
        assert next == c;
      }
    } else if TakesFull(next, rest) {
      CatchesUp(c, next, rest);
    } else {
      StaysBehind(c, next, rest);
    }
  }
}
