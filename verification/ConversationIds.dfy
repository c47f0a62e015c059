/**
 Watching an agent's output for the identifier of its conversation, which programs put into operating
 system commands: `ESC ]`, a body, and BEL or `ESC \`.

 The detector searches a buffer that it fills read by read, drains, and trims. It is compared with an
 automaton that takes the stream byte by byte and never forgets, and so cannot depend on the reads.

 Bodies are bytes here. The program decodes them first, which replaces malformed bytes above 0x7f by a
 character that no pattern below accepts, just as none accepts the bytes themselves.
 */
module ConversationIds {
  import opened Basics
  import opened ColorQueries

  const ESC: u8 := 0x1b
  const OPEN: u8 := 0x5d
  const BEL: u8 := 0x07
  const CLOSE: u8 := 0x5c
  const DASH: u8 := 0x2d
  const KEPT_BYTES: nat := 512

  // ---------------------------------------------------------------------------------------------
  // Byte by byte
  // ---------------------------------------------------------------------------------------------

  /** Outside, everything since the last command; inside, the body so far. */
  datatype Osc = Outside(since: seq<u8>) | Inside(body: seq<u8>)

  predicate EndsWithEscape(s: seq<u8>) {
    |s| > 0 && s[|s| - 1] == ESC
  }

  /** One byte, and the body it completes, if any. */
  function Step(q: Osc, byte: u8): (Osc, Option<seq<u8>>) {
    match q
    case Outside(since) =>
      if EndsWithEscape(since) && byte == OPEN then (Inside([]), None) else (Outside(since + [byte]), None)
    case Inside(body) =>
      if byte == BEL then (Outside([]), Some(body))
      else if EndsWithEscape(body) && byte == CLOSE then (Outside([]), Some(body[..|body| - 1]))
      else (Inside(body + [byte]), None)
  }

  function Follow(q: Osc, bytes: seq<u8>): (Osc, seq<seq<u8>>)
    decreases |bytes|
  {
    if |bytes| == 0 then (q, [])
    else
      var (next, body) := Step(q, bytes[0]);
      var (end, more) := Follow(next, bytes[1..]);
      (end, (if body.Some? then [body.value] else []) + more)
  }

  lemma {:induction false} FollowConcat(q: Osc, a: seq<u8>, b: seq<u8>)
    ensures Follow(q, a + b).0 == Follow(Follow(q, a).0, b).0
    ensures Follow(q, a + b).1 == Follow(q, a).1 + Follow(Follow(q, a).0, b).1
    decreases |a|
  {
    if |a| == 0 {
      assert a + b == b;
    } else {
      assert (a + b)[1..] == a[1..] + b;
      var (next, body) := Step(q, a[0]);
      FollowConcat(next, a[1..], b);
      Associative(
        if body.Some? then [body.value] else [], Follow(next, a[1..]).1, Follow(Follow(next, a[1..]).0, b).1);
    }
  }

  // ---------------------------------------------------------------------------------------------
  // What a body says
  // ---------------------------------------------------------------------------------------------

  predicate IsHexDigit(b: u8) {
    0x30 <= b <= 0x39 || 0x41 <= b <= 0x46 || 0x61 <= b <= 0x66
  }

  predicate IsAlphanumeric(b: u8) {
    0x30 <= b <= 0x39 || 0x41 <= b <= 0x5a || 0x61 <= b <= 0x7a
  }

  predicate IsWhitespace(b: u8) {
    b == 0x20 || b == 0x09 || b == 0x0a || b == 0x0c || b == 0x0d
  }

  predicate SeparatesIds(b: u8) {
    !IsHexDigit(b) && b != DASH
  }

  predicate SeparatesWords(b: u8) {
    b == 0x7c || IsWhitespace(b)
  }

  predicate LooksLikeUuid(s: seq<u8>) {
    |s| == 36 && forall i | 0 <= i < 36 :: if i in [8, 13, 18, 23] then s[i] == DASH else IsHexDigit(s[i])
  }

  /** `ses_` */
  const SESSION: seq<u8> := [0x73, 0x65, 0x73, 0x5f]

  predicate LooksLikeSessionId(s: seq<u8>) {
    SESSION < s && forall i | 4 <= i < |s| :: IsAlphanumeric(s[i])
  }

  /** `0;` and `2;`, the commands that set a window's title */
  predicate IsTitle(body: seq<u8>) {
    [0x30, 0x3b] <= body || [0x32, 0x3b] <= body
  }

  /** `OC | ` */
  const OPENCODE_TITLE: seq<u8> := [0x4f, 0x43, 0x20, 0x7c, 0x20]

  /** `777;svarm-conversation=` */
  const CLAUDE_PREFIX: seq<u8> := [
    0x37, 0x37, 0x37, 0x3b, 0x73, 0x76, 0x61, 0x72, 0x6d, 0x2d, 0x63, 0x6f,
    0x6e, 0x76, 0x65, 0x72, 0x73, 0x61, 0x74, 0x69, 0x6f, 0x6e, 0x3d]

  /** The pieces between separators, as `split` gives them: `n` separators make `n + 1` pieces. */
  function Pieces(s: seq<u8>, separates: u8 -> bool): (r: seq<seq<u8>>)
    ensures |r| > 0
  {
    if |s| == 0 then [[]]
    else
      var rest := Pieces(s[1..], separates);
      if separates(s[0]) then [[]] + rest else [[s[0]] + rest[0]] + rest[1..]
  }

  function FirstSuch(pieces: seq<seq<u8>>, wanted: seq<u8> -> bool): (r: Option<seq<u8>>)
    ensures r.Some? ==> r.value in pieces && wanted(r.value)
    ensures r.None? ==> forall piece | piece in pieces :: !wanted(piece)
  {
    if |pieces| == 0 then None
    else if wanted(pieces[0]) then Some(pieces[0])
    else FirstSuch(pieces[1..], wanted)
  }

  function Lowercase(s: seq<u8>): seq<u8> {
    seq(|s|, i requires 0 <= i < |s| => if 0x41 <= s[i] <= 0x5a then s[i] + 0x20 else s[i])
  }

  function Candidate(kind: AgentKind, body: seq<u8>): Option<seq<u8>> {
    match kind
    case Codex =>
      if IsTitle(body) then FirstSuch(Pieces(body, SeparatesIds), LooksLikeUuid) else None
    case Claude => if CLAUDE_PREFIX <= body then Some(body[|CLAUDE_PREFIX|..]) else None
    case Pi => None
    case Grok => None
    case OpenCode =>
      if IsTitle(body) && OPENCODE_TITLE <= body[2..] then
        FirstSuch(Pieces(body[2 + |OPENCODE_TITLE|..], SeparatesWords), LooksLikeSessionId)
      else None
  }

  /** The identifier a body names. */
  function IdIn(kind: AgentKind, body: seq<u8>): Option<seq<u8>> {
    var candidate := Candidate(kind, body);
    if candidate.Some? && LooksLikeUuid(candidate.value) then Some(Lowercase(candidate.value))
    else if candidate.Some? && kind == OpenCode && LooksLikeSessionId(candidate.value) then candidate
    else None
  }

  function Newer(found: Option<seq<u8>>, next: Option<seq<u8>>): Option<seq<u8>> {
    if next.Some? then next else found
  }

  /** The last identifier named by any of the bodies. */
  function Latest(kind: AgentKind, found: Option<seq<u8>>, bodies: seq<seq<u8>>): Option<seq<u8>>
    decreases |bodies|
  {
    if |bodies| == 0 then found else Latest(kind, Newer(found, IdIn(kind, bodies[0])), bodies[1..])
  }

  lemma {:induction false} LatestConcat(kind: AgentKind, found: Option<seq<u8>>, a: seq<seq<u8>>, b: seq<seq<u8>>)
    ensures Latest(kind, found, a + b) == Latest(kind, Latest(kind, found, a), b)
    decreases |a|
  {
    if |a| == 0 {
      assert a + b == b;
    } else {
      assert (a + b)[1..] == a[1..] + b;
      LatestConcat(kind, Newer(found, IdIn(kind, a[0])), a[1..], b);
    }
  }

  lemma {:induction false} LatestIsNewer(kind: AgentKind, found: Option<seq<u8>>, bodies: seq<seq<u8>>)
    ensures Latest(kind, found, bodies) == Newer(found, Latest(kind, None, bodies))
    decreases |bodies|
  {
    if |bodies| > 0 {
      LatestIsNewer(kind, Newer(found, IdIn(kind, bodies[0])), bodies[1..]);
      LatestIsNewer(kind, Newer(None, IdIn(kind, bodies[0])), bodies[1..]);
    }
  }

  // ---------------------------------------------------------------------------------------------
  // The detector
  // ---------------------------------------------------------------------------------------------

  /** What the detector keeps of the automaton's state. */
  function Pending(q: Osc): seq<u8> {
    match q
    case Outside(since) => LastBytes(since, KEPT_BYTES)
    case Inside(body) => [ESC, OPEN] + body
  }

  class Detector {
    const kind: AgentKind
    var pending: seq<u8>

    constructor (kind: AgentKind)
      ensures this.kind == kind && pending == []
    {
      this.kind := kind;
      pending := [];
    }

    method Process(bytes: seq<u8>) returns (found: Option<seq<u8>>)
      modifies this
      ensures pending == Pending(Follow(Outside([]), old(pending) + bytes).0)
      ensures found == Latest(kind, None, Follow(Outside([]), old(pending) + bytes).1)
    {
      pending := pending + bytes;
      var data := pending;
      found := None;
      var consumed := 0;
      SearchStarts(kind, data);
      var start := FindOpening(data, consumed);
      while start.Some?
        invariant consumed <= |data| && IsOpening(data, consumed, start)
        invariant Searched(kind, data, consumed, found)
        decreases |data| - consumed
      {
        var body := start.value + 2;
        var end := OscEnd(data[body..]);
        if end.None? {
          LeftOpen(kind, found, data, consumed, start.value);
          pending := data[start.value..];
          return;
        }
        var (length, terminator) := end.value;
        var next := Newer(found, IdIn(kind, data[body..body + length]));
        BodyTaken(kind, found, next, data, consumed, body, length, terminator);
        found := next;
        consumed := body + length + terminator;
        start := FindOpening(data, consumed);
      }
      NothingOpens(kind, found, data, consumed);
      pending := data[consumed..];
      if |pending| > KEPT_BYTES {
        pending := pending[|pending| - KEPT_BYTES..];
      }
    }
  }

  /** How far the search has come: the bytes before `consumed` are accounted for by `found`. */
  ghost predicate Searched(kind: AgentKind, s: seq<u8>, consumed: nat, found: Option<seq<u8>>)
    requires consumed <= |s|
  {
    && Follow(Outside([]), s[consumed..]).0 == Follow(Outside([]), s).0
    && Latest(kind, found, Follow(Outside([]), s[consumed..]).1) == Latest(kind, None, Follow(Outside([]), s).1)
  }

  predicate OpensAt(s: seq<u8>, i: nat) {
    i + 1 < |s| && s[i] == ESC && s[i + 1] == OPEN
  }

  ghost predicate IsOpening(s: seq<u8>, from: nat, start: Option<nat>) {
    match start
    case Some(i) => from <= i && OpensAt(s, i) && forall j | from <= j < i :: !OpensAt(s, j)
    case None => forall j | from <= j :: !OpensAt(s, j)
  }

  method FindOpening(s: seq<u8>, from: nat) returns (start: Option<nat>)
    requires from <= |s|
    ensures IsOpening(s, from, start)
  {
    var i := from;
    while i + 2 <= |s|
      invariant from <= i && forall j | from <= j < i :: !OpensAt(s, j)
    {
      assert s[i..i + 2] == [s[i], s[i + 1]];
      if s[i..i + 2] == [ESC, OPEN] {
        return Some(i);
      }
      i := i + 1;
    }
    start := None;
  }

  /** The length of the terminator at position `i`, or 0. */
  function TerminatorAt(s: seq<u8>, i: nat): nat {
    if i < |s| && s[i] == BEL then 1
    else if i + 1 < |s| && s[i] == ESC && s[i + 1] == CLOSE then 2
    else 0
  }

  ghost predicate IsFirstEnd(s: seq<u8>, length: nat, terminator: nat) {
    && length + terminator <= |s| && terminator == TerminatorAt(s, length) > 0
    && forall j | 0 <= j < length :: TerminatorAt(s, j) == 0
  }

  method OscEnd(s: seq<u8>) returns (end: Option<(nat, nat)>)
    ensures end.Some? ==> IsFirstEnd(s, end.value.0, end.value.1)
    ensures end.None? ==> Follow(Inside([]), s) == (Inside(s), [])
  {
    for index := 0 to |s|
      invariant forall j | 0 <= j < index :: TerminatorAt(s, j) == 0
    {
      if s[index] == BEL {
        return Some((index, 1));
      }
      if s[index] == ESC && index + 1 < |s| && s[index + 1] == CLOSE {
        return Some((index, 2));
      }
    }
    NeverCloses([], s);
    assert [] + s == s;
    end := None;
  }

  // ---------------------------------------------------------------------------------------------
  // Searching is following
  // ---------------------------------------------------------------------------------------------

  /** Where nothing opens, everything stays outside. */
  lemma {:induction false} NeverOpens(since: seq<u8>, s: seq<u8>)
    requires forall j: nat :: !OpensAt(s, j)
    requires EndsWithEscape(since) && |s| > 0 ==> s[0] != OPEN
    ensures Follow(Outside(since), s) == (Outside(since + s), [])
    decreases |s|
  {
    if |s| == 0 {
      assert since + s == since;
    } else {
      assert !OpensAt(s, 0);
      assert forall j: nat :: OpensAt(s[1..], j) ==> OpensAt(s, j + 1);
      assert Step(Outside(since), s[0]) == (Outside(since + [s[0]]), None);
      NeverOpens(since + [s[0]], s[1..]);
      assert since + [s[0]] + s[1..] == since + s;
      assert [] + Follow(Outside(since + [s[0]]), s[1..]).1 == [];
    }
  }

  lemma Opens(s: seq<u8>, from: nat, start: nat)
    requires from <= |s| && IsOpening(s, from, Some(start))
    ensures Follow(Outside([]), s[from..]) == Follow(Inside([]), s[start + 2..])
  {
    var before := s[from..start + 1];
    assert s[from..] == before + s[start + 1..];
    forall j: nat
      ensures !OpensAt(before, j)
    {
      assert OpensAt(before, j) ==> OpensAt(s, from + j);
    }
    NeverOpens([], before);
    assert [] + before == before;
    FollowConcat(Outside([]), before, s[start + 1..]);
    assert s[start + 1..][1..] == s[start + 2..] && EndsWithEscape(before);
    var more := Follow(Inside([]), s[start + 2..]).1;
    assert [] + ([] + more) == more;
  }

  lemma {:induction false} NeverCloses(body: seq<u8>, s: seq<u8>)
    requires forall j | 0 <= j < |s| :: TerminatorAt(s, j) == 0
    requires EndsWithEscape(body) && |s| > 0 ==> s[0] != CLOSE
    ensures Follow(Inside(body), s) == (Inside(body + s), [])
    decreases |s|
  {
    if |s| == 0 {
      assert body + s == body;
    } else {
      assert TerminatorAt(s, 0) == 0;
      forall j | 0 <= j < |s[1..]|
        ensures TerminatorAt(s[1..], j) == 0
      {
        assert TerminatorAt(s, j + 1) == 0;
      }
      assert Step(Inside(body), s[0]) == (Inside(body + [s[0]]), None);
      NeverCloses(body + [s[0]], s[1..]);
      assert body + [s[0]] + s[1..] == body + s;
      assert [] + Follow(Inside(body + [s[0]]), s[1..]).1 == [];
    }
  }

  lemma Closes(s: seq<u8>, length: nat, terminator: nat)
    requires IsFirstEnd(s, length, terminator)
    ensures Follow(Inside([]), s).0 == Follow(Outside([]), s[length + terminator..]).0
    ensures Follow(Inside([]), s).1 == [s[..length]] + Follow(Outside([]), s[length + terminator..]).1
  {
    var body, closing, rest := s[..length + terminator - 1], s[length + terminator - 1], s[length + terminator..];
    assert s == body + ([closing] + rest);
    forall j | 0 <= j < |body|
      ensures TerminatorAt(body, j) == 0
    {
      if j < length {
        assert TerminatorAt(s, j) == 0;
      }
    }
    NeverCloses([], body);
    assert [] + body == body;
    FollowConcat(Inside([]), body, [closing] + rest);
    assert ([closing] + rest)[1..] == rest;
    ClosingByte(s, length, terminator);
    var more := Follow(Outside([]), rest).1;
    assert [] + ([s[..length]] + more) == [s[..length]] + more;
  }

  lemma ClosingByte(s: seq<u8>, length: nat, terminator: nat)
    requires length + terminator <= |s| && terminator == TerminatorAt(s, length) > 0
    requires terminator == 1 ==> !EndsWithEscape(s[..length]) || s[length] != CLOSE
    ensures Step(Inside(s[..length + terminator - 1]), s[length + terminator - 1]) == (Outside([]), Some(s[..length]))
  {
    if terminator == 2 {
      assert s[..length + 1][..length] == s[..length];
    }
  }

  lemma SearchStarts(kind: AgentKind, s: seq<u8>)
    ensures Searched(kind, s, 0, None)
  {
    assert s[0..] == s;
  }

  lemma SliceOfRest<T>(s: seq<T>, from: nat, length: nat)
    requires from + length <= |s|
    ensures s[from..][..length] == s[from..from + length] && s[from..][length..] == s[from + length..]
  {
  }

  lemma OneCommand(s: seq<u8>, consumed: nat, body: nat, length: nat, terminator: nat)
    requires consumed + 2 <= body <= |s| && IsOpening(s, consumed, Some(body - 2))
    requires IsFirstEnd(s[body..], length, terminator)
    ensures var rest := Follow(Outside([]), s[body + length + terminator..]);
            Follow(Outside([]), s[consumed..]) == (rest.0, [s[body..body + length]] + rest.1)
  {
    Opens(s, consumed, body - 2);
    Closes(s[body..], length, terminator);
    SliceOfRest(s, body, length);
    SliceOfRest(s, body, length + terminator);
  }

  lemma BodyTaken(
    kind: AgentKind, found: Option<seq<u8>>, next: Option<seq<u8>>, s: seq<u8>,
    consumed: nat, body: nat, length: nat, terminator: nat)
    requires consumed + 2 <= body <= |s| && IsOpening(s, consumed, Some(body - 2))
    requires Searched(kind, s, consumed, found)
    requires IsFirstEnd(s[body..], length, terminator)
    requires next == Newer(found, IdIn(kind, s[body..body + length]))
    ensures Searched(kind, s, body + length + terminator, next)
  {
    OneCommand(s, consumed, body, length, terminator);
    LatestOfFirst(kind, found, s[body..body + length], Follow(Outside([]), s[body + length + terminator..]).1);
  }

  lemma LatestOfFirst(kind: AgentKind, found: Option<seq<u8>>, body: seq<u8>, more: seq<seq<u8>>)
    ensures Latest(kind, found, [body] + more) == Latest(kind, Newer(found, IdIn(kind, body)), more)
  {
    assert ([body] + more)[1..] == more;
  }

  lemma LeftOpen(kind: AgentKind, found: Option<seq<u8>>, s: seq<u8>, consumed: nat, start: nat)
    requires consumed <= |s| && Searched(kind, s, consumed, found) && IsOpening(s, consumed, Some(start))
    requires Follow(Inside([]), s[start + 2..]) == (Inside(s[start + 2..]), [])
    ensures s[start..] == Pending(Follow(Outside([]), s).0)
    ensures found == Latest(kind, None, Follow(Outside([]), s).1)
  {
    Opens(s, consumed, start);
  }

  lemma NothingOpens(kind: AgentKind, found: Option<seq<u8>>, s: seq<u8>, consumed: nat)
    requires consumed <= |s| && Searched(kind, s, consumed, found) && IsOpening(s, consumed, None)
    ensures LastBytes(s[consumed..], KEPT_BYTES) == Pending(Follow(Outside([]), s).0)
    ensures found == Latest(kind, None, Follow(Outside([]), s).1)
  {
    var rest := s[consumed..];
    forall j: nat
      ensures !OpensAt(rest, j)
    {
      assert OpensAt(rest, j) ==> OpensAt(s, consumed + j);
    }
    NeverOpens([], rest);
    assert [] + rest == rest;
  }

  // ---------------------------------------------------------------------------------------------
  // Cutting the stream
  // ---------------------------------------------------------------------------------------------

  /** States that a stream can lead to: nothing has opened outside, nothing has closed inside. */
  ghost predicate Reached(q: Osc) {
    match q
    case Outside(since) => forall j: nat :: !OpensAt(since, j)
    case Inside(body) => forall j | 0 <= j < |body| :: TerminatorAt(body, j) == 0
  }

  lemma {:induction false} FollowReaches(q: Osc, bytes: seq<u8>)
    requires Reached(q)
    ensures Reached(Follow(q, bytes).0)
    decreases |bytes|
  {
    if |bytes| > 0 {
      StepReaches(q, bytes[0]);
      FollowReaches(Step(q, bytes[0]).0, bytes[1..]);
    }
  }

  lemma StepReaches(q: Osc, byte: u8)
    requires Reached(q)
    ensures Reached(Step(q, byte).0)
  {
    match q {
      case Outside(since) =>
        forall j: nat
          ensures OpensAt(since + [byte], j) ==> OpensAt(since, j) || (EndsWithEscape(since) && byte == OPEN)
        {
        }
      case Inside(body) =>
        forall j | 0 <= j < |body + [byte]|
          ensures TerminatorAt(body + [byte], j) > 0 ==>
                    byte == BEL || (EndsWithEscape(body) && byte == CLOSE) || (j < |body| && TerminatorAt(body, j) > 0)
        {
        }
    }
  }

  /** Two states that differ at most in how much before the kept bytes they remember. */
  predicate Alike(q: Osc, r: Osc) {
    q == r || (q.Outside? && r.Outside? && LastBytes(q.since, KEPT_BYTES) == LastBytes(r.since, KEPT_BYTES))
  }

  lemma StepAlike(q: Osc, r: Osc, byte: u8)
    requires Alike(q, r)
    ensures Alike(Step(q, byte).0, Step(r, byte).0) && Step(q, byte).1 == Step(r, byte).1
  {
    if q != r {
      LastBytesKept(q.since, r.since, byte);
    }
  }

  lemma LastBytesKept(a: seq<u8>, b: seq<u8>, byte: u8)
    requires LastBytes(a, KEPT_BYTES) == LastBytes(b, KEPT_BYTES)
    ensures LastBytes(a + [byte], KEPT_BYTES) == LastBytes(b + [byte], KEPT_BYTES)
    ensures EndsWithEscape(a) == EndsWithEscape(b)
  {
    LastByteOf(a);
    LastByteOf(b);
    LastBytesAppend(a, byte);
    LastBytesAppend(b, byte);
  }

  lemma LastByteOf(a: seq<u8>)
    ensures EndsWithEscape(a) == EndsWithEscape(LastBytes(a, KEPT_BYTES))
  {
  }

  lemma LastBytesAppend(a: seq<u8>, byte: u8)
    ensures LastBytes(a + [byte], KEPT_BYTES) == LastBytes(LastBytes(a, KEPT_BYTES) + [byte], KEPT_BYTES)
  {
  }

  lemma {:induction false} FollowAlike(q: Osc, r: Osc, bytes: seq<u8>)
    requires Alike(q, r)
    ensures Alike(Follow(q, bytes).0, Follow(r, bytes).0) && Follow(q, bytes).1 == Follow(r, bytes).1
    decreases |bytes|
  {
    if |bytes| > 0 {
      StepAlike(q, r, bytes[0]);
      FollowAlike(Step(q, bytes[0]).0, Step(r, bytes[0]).0, bytes[1..]);
    }
  }

  /** The kept bytes lead back to a state like the one they were kept from. */
  lemma PendingLeadsBack(q: Osc)
    requires Reached(q)
    ensures Alike(q, Follow(Outside([]), Pending(q)).0) && Follow(Outside([]), Pending(q)).1 == []
  {
    match q {
      case Outside(since) =>
        var kept := LastBytes(since, KEPT_BYTES);
        forall j: nat
          ensures !OpensAt(kept, j)
        {
          assert OpensAt(kept, j) ==> OpensAt(since, |since| - |kept| + j);
        }
        NeverOpens([], kept);
        assert [] + kept == kept;
      case Inside(body) =>
        assert Pending(q)[0..] == Pending(q) && Pending(q)[2..] == body;
        Opens(Pending(q), 0, 0);
        NeverCloses([], body);
        assert [] + body == body;
    }
  }

  function Fed(kind: AgentKind, pending: seq<u8>, found: Option<seq<u8>>, bytes: seq<u8>): (seq<u8>, Option<seq<u8>>) {
    var (q, bodies) := Follow(Outside([]), pending + bytes);
    (Pending(q), Newer(found, Latest(kind, None, bodies)))
  }

  /** The pending bytes, and the last identifier reported, after all the reads. */
  function FedAll(kind: AgentKind, pending: seq<u8>, found: Option<seq<u8>>, chunks: seq<seq<u8>>)
    : (seq<u8>, Option<seq<u8>>)
    decreases |chunks|
  {
    if |chunks| == 0 then (pending, found)
    else
      var (kept, next) := Fed(kind, pending, found, chunks[0]);
      FedAll(kind, kept, next, chunks[1..])
  }

  /** One read from the pending bytes is the same as one read from the state they stand for. */
  lemma FedFollows(kind: AgentKind, q: Osc, found: Option<seq<u8>>, bytes: seq<u8>)
    requires Reached(q)
    ensures Fed(kind, Pending(q), found, bytes) ==
            (Pending(Follow(q, bytes).0), Latest(kind, found, Follow(q, bytes).1))
  {
    var back := Follow(Outside([]), Pending(q));
    PendingLeadsBack(q);
    FollowConcat(Outside([]), Pending(q), bytes);
    FollowAlike(q, back.0, bytes);
    assert [] + Follow(q, bytes).1 == Follow(q, bytes).1;
    LatestIsNewer(kind, found, Follow(q, bytes).1);
  }

  lemma {:induction false} FedAllFollows(kind: AgentKind, q: Osc, found: Option<seq<u8>>, chunks: seq<seq<u8>>)
    requires Reached(q)
    ensures var (end, bodies) := Follow(q, Joined(chunks));
            FedAll(kind, Pending(q), found, chunks) == (Pending(end), Latest(kind, found, bodies))
    decreases |chunks|
  {
    if |chunks| > 0 {
      var (next, bodies) := Follow(q, chunks[0]);
      FedFollows(kind, q, found, chunks[0]);
      FollowReaches(q, chunks[0]);
      FedAllFollows(kind, next, Latest(kind, found, bodies), chunks[1..]);
      FollowConcat(q, chunks[0], Joined(chunks[1..]));
      LatestConcat(kind, found, bodies, Follow(next, Joined(chunks[1..])).1);
    }
  }

  /**
   Main result: over any cutting of the stream, the last identifier reported and the bytes left pending
   are those of one call on the whole stream, which are those of the byte-by-byte automaton.
   */
  lemma AnySplitIsOneCall(kind: AgentKind, chunks: seq<seq<u8>>)
    ensures FedAll(kind, [], None, chunks) == Fed(kind, [], None, Joined(chunks))
    ensures FedAll(kind, [], None, chunks).1 == Latest(kind, None, Follow(Outside([]), Joined(chunks)).1)
  {
    assert Pending(Outside([])) == [];
    FedAllFollows(kind, Outside([]), None, chunks);
    FedFollows(kind, Outside([]), None, Joined(chunks));
  }

  // ---------------------------------------------------------------------------------------------
  // What can be reported
  // ---------------------------------------------------------------------------------------------

  lemma LowercaseUuid(s: seq<u8>)
    requires LooksLikeUuid(s)
    ensures LooksLikeUuid(Lowercase(s)) && Lowercase(Lowercase(s)) == Lowercase(s)
  {
  }

  lemma SessionIdIsNoUuid(s: seq<u8>)
    requires LooksLikeSessionId(s)
    ensures !LooksLikeUuid(s)
  {
    assert s[0] == SESSION[0] && !IsHexDigit(s[0]);
  }

  /**
   Only well-formed identifiers are reported; a UUID never has capitals, so equal conversations get equal
   identifiers.
   */
  lemma ReportedIdsAreWellFormed(kind: AgentKind, body: seq<u8>)
    requires IdIn(kind, body).Some?
    ensures var id := IdIn(kind, body).value;
            if kind == OpenCode then LooksLikeSessionId(id) else LooksLikeUuid(id) && Lowercase(id) == id
  {
    var candidate := Candidate(kind, body).value;
    if kind == OpenCode {
      SessionIdIsNoUuid(candidate);
    } else {
      LowercaseUuid(candidate);
    }
  }

  /** `s[i..j]` has no separator in it, and separators or the ends of `s` around it. */
  predicate Stands(s: seq<u8>, separates: u8 -> bool, i: nat, j: nat) {
    && i <= j <= |s| && (forall k | i <= k < j :: !separates(s[k]))
    && (i > 0 ==> separates(s[i - 1])) && (j < |s| ==> separates(s[j]))
  }

  /** The length of the first piece. */
  function Cut(s: seq<u8>, separates: u8 -> bool): (n: nat)
    ensures n <= |s| && (forall k | 0 <= k < n :: !separates(s[k])) && (n < |s| ==> separates(s[n]))
  {
    if |s| == 0 || separates(s[0]) then 0 else 1 + Cut(s[1..], separates)
  }

  lemma {:induction false} FirstPiece(s: seq<u8>, separates: u8 -> bool)
    ensures var n := Cut(s, separates);
            Pieces(s, separates) == [s[..n]] + if n < |s| then Pieces(s[n + 1..], separates) else []
  {
    if |s| > 0 {
      if separates(s[0]) {
        assert s[..0] == [];
      } else {
        FirstPiece(s[1..], separates);
        var n := Cut(s[1..], separates);
        assert [s[0]] + s[1..][..n] == s[..n + 1];
        assert n < |s[1..]| ==> s[1..][n + 1..] == s[n + 2..];
      }
    }
  }

  /** Only the first piece starts at the front; every other stands behind the first separator. */
  lemma StandsFirst(s: seq<u8>, separates: u8 -> bool, i: nat, j: nat)
    requires Stands(s, separates, i, j)
    ensures if i == 0 then j == Cut(s, separates) else Cut(s, separates) < i
  {
  }

  lemma StandsShifted(s: seq<u8>, separates: u8 -> bool, m: nat, i: nat, j: nat, k: nat, l: nat)
    requires 0 < m <= |s| && separates(s[m - 1]) && k == i + m && l == j + m && l <= |s| && i <= j
    ensures Stands(s, separates, k, l) <==> Stands(s[m..], separates, i, j)
    ensures s[k..l] == s[m..][i..j]
  {
    var rest := s[m..];
    assert forall x | 0 <= x < |rest| :: rest[x] == s[x + m];
    if Stands(rest, separates, i, j) {
      forall x | k <= x < l
        ensures !separates(s[x])
      {
        assert rest[x - m] == s[x];
      }
    }
  }

  /** No wanted piece stands before `i`. */
  ghost predicate NoneBefore(s: seq<u8>, separates: u8 -> bool, wanted: seq<u8> -> bool, i: nat) {
    forall k: nat, l: nat | Stands(s, separates, k, l) && k < i :: !wanted(s[k..l])
  }

  lemma NoneBeforeShifted(s: seq<u8>, separates: u8 -> bool, wanted: seq<u8> -> bool, m: nat, i: nat, k: nat)
    requires 0 < m <= |s| && m == Cut(s, separates) + 1 && k == i + m
    requires !wanted(s[..m - 1]) && NoneBefore(s[m..], separates, wanted, i)
    ensures NoneBefore(s, separates, wanted, k)
  {
    forall x: nat, y: nat | Stands(s, separates, x, y) && x < k
      ensures !wanted(s[x..y])
    {
      StandsFirst(s, separates, x, y);
      if x == 0 {
        assert s[0..m - 1] == s[..m - 1];
      } else {
        StandsShifted(s, separates, m, x - m, y - m, x, y);
      }
    }
  }

  /** The piece found is the leftmost wanted one that stands between separators; without one there is none anywhere. */
  lemma {:induction false} FindsLeftmost(s: seq<u8>, separates: u8 -> bool, wanted: seq<u8> -> bool)
    returns (i: nat, j: nat)
    ensures i <= |s| + 1
    ensures NoneBefore(s, separates, wanted, i)
    ensures FirstSuch(Pieces(s, separates), wanted).None? ==> i == |s| + 1
    ensures FirstSuch(Pieces(s, separates), wanted).Some? ==>
              Stands(s, separates, i, j) && wanted(s[i..j]) && FirstSuch(Pieces(s, separates), wanted).value == s[i..j]
    decreases |s|
  {
    var n := Cut(s, separates);
    var pieces := Pieces(s, separates);
    FirstPiece(s, separates);
    if wanted(s[..n]) {
      i, j := 0, n;
      assert s[0..n] == s[..n];
    } else if n < |s| {
      var m := n + 1;
      var k, l := FindsLeftmost(s[m..], separates, wanted);
      assert pieces[1..] == Pieces(s[m..], separates);
      i, j := k + m, l + m;
      NoneBeforeShifted(s, separates, wanted, m, k, i);
      if FirstSuch(pieces, wanted).Some? {
        StandsShifted(s, separates, m, k, l, i, j);
      }
    } else {
      i, j := |s| + 1, 0;
      assert pieces[1..] == [];
      forall x: nat, y: nat | Stands(s, separates, x, y)
        ensures !wanted(s[x..y])
      {
        StandsFirst(s, separates, x, y);
        assert s[0..n] == s[..n];
      }
    }
  }

  /** A UUID at `i` that nothing a UUID is made of touches on either side. */
  predicate UuidAt(body: seq<u8>, i: nat) {
    && i + 36 <= |body| && LooksLikeUuid(body[i..i + 36])
    && (i > 0 ==> SeparatesIds(body[i - 1])) && (i + 36 < |body| ==> SeparatesIds(body[i + 36]))
  }

  lemma UuidStands(body: seq<u8>, i: nat, j: nat)
    requires i <= j <= |body| && LooksLikeUuid(body[i..j])
    ensures Stands(body, SeparatesIds, i, j) <==> UuidAt(body, i) && j == i + 36
  {
    assert |body[i..j]| == j - i;
    forall k | i <= k < j
      ensures !SeparatesIds(body[k])
    {
      assert body[i..j][k - i] == body[k];
    }
  }

  /** Codex reports the leftmost UUID standing by itself in a title, in lower case. */
  lemma CodexReportsExactly(body: seq<u8>, id: seq<u8>)
    ensures IdIn(Codex, body) == Some(id) <==>
            && IsTitle(body)
            && exists i: nat ::
               UuidAt(body, i) && id == Lowercase(body[i..i + 36]) && forall k: nat | k < i :: !UuidAt(body, k)
  {
    var i, j := FindsLeftmost(body, SeparatesIds, LooksLikeUuid);
    forall k: nat | UuidAt(body, k)
      ensures i <= k
    {
      UuidStands(body, k, k + 36);
    }
    if FirstSuch(Pieces(body, SeparatesIds), LooksLikeUuid).Some? {
      UuidStands(body, i, j);
      assert UuidAt(body, i) && j == i + 36;
    }
  }

  /**
   An OpenCode session identifier in `body[i..j]`, between bars, white space or the ends of what follows the
   marker.
   */
  predicate SessionIdAt(body: seq<u8>, from: nat, i: nat, j: nat)
    requires from <= |body|
  {
    && from <= i <= j <= |body| && LooksLikeSessionId(body[i..j])
    && (i > from ==> SeparatesWords(body[i - 1])) && (j < |body| ==> SeparatesWords(body[j]))
  }

  lemma NoneInsideSessionId(body: seq<u8>, i: nat, j: nat)
    requires i <= j <= |body| && LooksLikeSessionId(body[i..j])
    ensures forall k | i <= k < j :: !SeparatesWords(body[k])
  {
    forall k | i <= k < j
      ensures !SeparatesWords(body[k])
    {
      assert body[i..j][k - i] == body[k];
    }
  }

  lemma SessionIdStands(body: seq<u8>, from: nat, i: nat, j: nat)
    requires from <= i <= j <= |body| && LooksLikeSessionId(body[i..j])
    ensures Stands(body[from..], SeparatesWords, i - from, j - from) <==> SessionIdAt(body, from, i, j)
    ensures body[from..][i - from..j - from] == body[i..j]
  {
    var rest := body[from..];
    assert forall k | 0 <= k < |rest| :: rest[k] == body[k + from];
    NoneInsideSessionId(body, i, j);
  }

  /** No session identifier stands before `i`. */
  ghost predicate NoSessionIdBefore(body: seq<u8>, from: nat, i: nat)
    requires from <= |body|
  {
    forall k: nat, l: nat | k < i :: !SessionIdAt(body, from, k, l)
  }

  lemma LeftmostSessionId(body: seq<u8>, from: nat) returns (i: nat, j: nat)
    requires from <= |body|
    ensures var found := FirstSuch(Pieces(body[from..], SeparatesWords), LooksLikeSessionId);
            if found.Some? then SessionIdAt(body, from, i, j) && found.value == body[i..j]
              && NoSessionIdBefore(body, from, i)
            else forall k: nat, l: nat :: !SessionIdAt(body, from, k, l)
  {
    var rest := body[from..];
    var x, y := FindsLeftmost(rest, SeparatesWords, LooksLikeSessionId);
    i, j := x + from, y + from;
    forall k: nat, l: nat | SessionIdAt(body, from, k, l)
      ensures i <= k
    {
      SessionIdStands(body, from, k, l);
    }
    if FirstSuch(Pieces(rest, SeparatesWords), LooksLikeSessionId).Some? {
      assert rest[x..y] == body[i..j];
      SessionIdStands(body, from, i, j);
    } else {
      forall k: nat, l: nat
        ensures !SessionIdAt(body, from, k, l)
      {
        assert SessionIdAt(body, from, k, l) ==> k <= |body|;
      }
    }
  }

  /** There is one way only for an identifier to stand at one place. */
  lemma SameSessionId(body: seq<u8>, from: nat, i: nat, j: nat, l: nat)
    requires from <= |body| && SessionIdAt(body, from, i, j) && SessionIdAt(body, from, i, l)
    ensures j == l
  {
    NoneInsideSessionId(body, i, j);
    NoneInsideSessionId(body, i, l);
  }

  /** OpenCode reports the leftmost session identifier standing by itself behind the marker in a title. */
  lemma OpenCodeReportsExactly(body: seq<u8>, id: seq<u8>)
    ensures IdIn(OpenCode, body) == Some(id) <==>
            && IsTitle(body) && OPENCODE_TITLE <= body[2..]
            && exists i: nat, j: nat :: SessionIdAt(body, 7, i, j) && id == body[i..j] && NoSessionIdBefore(body, 7, i)
  {
    if IsTitle(body) && OPENCODE_TITLE <= body[2..] {
      var i, j := LeftmostSessionId(body, 7);
      var found := FirstSuch(Pieces(body[7..], SeparatesWords), LooksLikeSessionId);
      if found.Some? {
        SessionIdIsNoUuid(found.value);
        forall k: nat, l: nat | SessionIdAt(body, 7, k, l) && NoSessionIdBefore(body, 7, k)
          ensures body[k..l] == found.value
        {
          assert k == i;
          SameSessionId(body, 7, i, j, l);
        }
      }
    }
  }

  /** Claude's own command names exactly one identifier and nothing else; Pi and Grok report by other means. */
  lemma OthersReportExactly(body: seq<u8>, id: seq<u8>)
    ensures IdIn(Claude, body) == Some(id) <==>
            |body| == 59 && body[..23] == CLAUDE_PREFIX && LooksLikeUuid(body[23..]) && id == Lowercase(body[23..])
    ensures IdIn(Pi, body).None? && IdIn(Grok, body).None?
  {
    assert CLAUDE_PREFIX <= body <==> |body| >= 23 && body[..23] == CLAUDE_PREFIX;
  }
}
