/**
 Recognizing an agent's questions about the terminal's colours in its output, which arrives in reads
 of any size. The detector keeps at most seven bytes between reads; it reports every question in the
 whole stream exactly once, however the stream is cut.
 */
module ColorQueries {
  import opened Basics

  datatype ColorQuery = Foreground | Background

  const MAX_PARTIAL_QUERY_LEN: nat := 7

  /** `ESC ] 1 0 ; ?` and `ESC ] 1 1 ; ?`, each ended by `ESC \` or by BEL. */
  const QUERIES: seq<(seq<u8>, ColorQuery)> := [
    ([0x1b, 0x5d, 0x31, 0x30, 0x3b, 0x3f, 0x1b, 0x5c], Foreground),
    ([0x1b, 0x5d, 0x31, 0x31, 0x3b, 0x3f, 0x1b, 0x5c], Background),
    ([0x1b, 0x5d, 0x31, 0x30, 0x3b, 0x3f, 0x07], Foreground),
    ([0x1b, 0x5d, 0x31, 0x31, 0x3b, 0x3f, 0x07], Background)]

  // ---------------------------------------------------------------------------------------------
  // What is to be found
  // ---------------------------------------------------------------------------------------------

  /** The question at the start of the bytes, if there is one, by its index in `QUERIES`. */
  function Here(s: seq<u8>): (r: Option<nat>)
    ensures r.Some? ==> r.value < 4 && QUERIES[r.value].0 <= s
  {
    if QUERIES[0].0 <= s then Some(0)
    else if QUERIES[1].0 <= s then Some(1)
    else if QUERIES[2].0 <= s then Some(2)
    else if QUERIES[3].0 <= s then Some(3)
    else None
  }

  /** Every question in the bytes, in order of where it starts. */
  function Questions(s: seq<u8>): seq<ColorQuery> {
    if |s| == 0 then []
    else (if Here(s).Some? then [QUERIES[Here(s).value].1] else []) + Questions(s[1..])
  }

  /** What follows the last question. */
  function Rest(s: seq<u8>): (r: seq<u8>)
    ensures |r| <= |s|
    decreases |s|
  {
    if Questions(s) == [] then s
    else if Here(s).Some? then Rest(s[|QUERIES[Here(s).value].0|..])
    else Rest(s[1..])
  }

  function LastBytes(s: seq<u8>, n: nat): seq<u8> {
    if |s| <= n then s else s[|s| - n..]
  }

  function Carry(s: seq<u8>): seq<u8> {
    LastBytes(Rest(s), MAX_PARTIAL_QUERY_LEN)
  }

  // ---------------------------------------------------------------------------------------------
  // The detector
  // ---------------------------------------------------------------------------------------------

  class Detector {
    var pending: seq<u8>

    constructor ()
      ensures pending == []
    {
      pending := [];
    }

    method Process(bytes: seq<u8>) returns (detected: seq<ColorQuery>)
      modifies this
      ensures detected == Questions(old(pending) + bytes)
      ensures pending == Carry(old(pending) + bytes)
    {
      pending := pending + bytes;
      ghost var all := pending;
      detected := [];
      var found := Leftmost(pending);
      while found.Some?
        invariant found.Some? ==> IsLeftmost(pending, found.value.0, found.value.1)
        invariant found.None? ==> Questions(pending) == []
        invariant detected + Questions(pending) == Questions(all) && Rest(pending) == Rest(all)
        decreases |pending|
      {
        var (position, query) := found.value;
        DrainKeepsTheRest(pending, position, query);
        Associative(detected, [QUERIES[query].1], Questions(pending[position + |QUERIES[query].0|..]));
        detected := detected + [QUERIES[query].1];
        pending := pending[position + |QUERIES[query].0|..];
        found := Leftmost(pending);
      }
      if |pending| > MAX_PARTIAL_QUERY_LEN {
        pending := pending[|pending| - MAX_PARTIAL_QUERY_LEN..];
      }
    }
  }

  predicate IsLeftmost(s: seq<u8>, position: nat, query: nat) {
    && position <= |s| && query < 4 && Here(s[position..]) == Some(query)
    && forall i | 0 <= i < position :: Here(s[i..]).None?
  }

  /** Where a pattern first occurs in the bytes. */
  method FirstWindow(s: seq<u8>, pattern: seq<u8>) returns (position: Option<nat>)
    ensures position.Some? ==>
              position.value <= |s| && pattern <= s[position.value..]
                && forall i | 0 <= i < position.value :: !(pattern <= s[i..])
    ensures position.None? ==> forall i | 0 <= i <= |s| :: !(pattern <= s[i..])
  {
    var i := 0;
    while i + |pattern| <= |s|
      invariant forall j | 0 <= j < i && j <= |s| :: !(pattern <= s[j..])
    {
      assert s[i..][..|pattern|] == s[i..i + |pattern|];
      if s[i..i + |pattern|] == pattern {
        return Some(i);
      }
      i := i + 1;
    }
    position := None;
  }

  /** The earliest of the four patterns' first occurrences; the first pattern in the list on a tie. */
  method Leftmost(s: seq<u8>) returns (found: Option<(nat, nat)>)
    ensures found.Some? ==> IsLeftmost(s, found.value.0, found.value.1)
    ensures found.None? ==> Questions(s) == []
  {
    found := None;
    for q := 0 to 4
      invariant found.Some? ==>
                  && found.value.0 <= |s| && found.value.1 < q
                  && QUERIES[found.value.1].0 <= s[found.value.0..]
                  && forall i, p | 0 <= i < found.value.0 && 0 <= p < q :: !(QUERIES[p].0 <= s[i..])
      invariant found.None? ==> forall i, p | 0 <= i <= |s| && 0 <= p < q :: !(QUERIES[p].0 <= s[i..])
    {
      var position := FirstWindow(s, QUERIES[q].0);
      if position.Some? && (found.None? || position.value < found.value.0) {
        found := Some((position.value, q));
      }
    }
    if found.Some? {
      OnlyOneHere(s[found.value.0..], found.value.1);
    } else {
      NothingAnywhere(s);
    }
  }

  lemma OnlyOneHere(s: seq<u8>, query: nat)
    requires query < 4 && QUERIES[query].0 <= s
    ensures Here(s) == Some(query)
  {
    forall p | 0 <= p < 4 && QUERIES[p].0 <= s
      ensures p == query
    {
      assert s[3] == QUERIES[p].0[3] == QUERIES[query].0[3];
      assert s[6] == QUERIES[p].0[6] == QUERIES[query].0[6];
    }
  }

  lemma {:induction false} NothingAnywhere(s: seq<u8>)
    requires forall i | 0 <= i <= |s| :: Here(s[i..]).None?
    ensures Questions(s) == []
  {
    if |s| > 0 {
      assert s[0..] == s;
      assert forall i | 0 <= i <= |s[1..]| :: s[1..][i..] == s[i + 1..];
      NothingAnywhere(s[1..]);
    }
  }

  // ---------------------------------------------------------------------------------------------
  // Questions do not overlap
  // ---------------------------------------------------------------------------------------------

  /** No question starts inside another. */
  lemma NoneInside(s: seq<u8>, i: nat)
    requires Here(s).Some? && 0 < i < |QUERIES[Here(s).value].0|
    ensures Here(s[i..]).None?
  {
    var pattern := QUERIES[Here(s).value].0;
    assert forall k | 0 <= k < |pattern| :: s[k] == pattern[k];
    StartsWithEscape(s[i..]);
  }

  lemma StartsWithEscape(s: seq<u8>)
    ensures Here(s).Some? ==> |s| >= 2 && s[0] == 0x1b && s[1] == 0x5d
  {
  }

  /** So the questions after one are those after its end. */
  lemma {:induction false} SkipInside(s: seq<u8>, i: nat)
    requires Here(s).Some? && 0 < i <= |QUERIES[Here(s).value].0|
    ensures Questions(s) == [QUERIES[Here(s).value].1] + Questions(s[i..])
    decreases i
  {
    if i > 1 {
      SkipInside(s, i - 1);
      NoneInside(s, i - 1);
      assert s[i - 1..][1..] == s[i..];
    }
  }

  lemma DropTwice<T>(s: seq<T>, n: nat)
    requires 0 < n <= |s|
    ensures s[1..][n - 1..] == s[n..]
  {
  }

  lemma DropConcat<T>(s: seq<T>, t: seq<T>, n: nat)
    requires n <= |s|
    ensures (s + t)[n..] == s[n..] + t
  {
  }

  lemma LeftmostOfTail(s: seq<u8>, position: nat, query: nat)
    requires IsLeftmost(s, position, query) && position > 0
    ensures Here(s).None? && |s| > 0 && IsLeftmost(s[1..], position - 1, query)
  {
    assert s[0..] == s;
    assert forall i | 0 <= i <= |s[1..]| :: s[1..][i..] == s[i + 1..];
  }

  /** Draining the first `n` bytes takes out one question, `query`, and leaves all others. */
  ghost predicate Drains(s: seq<u8>, n: nat, query: ColorQuery) {
    n <= |s| && Questions(s) == [query] + Questions(s[n..]) && Rest(s) == Rest(s[n..])
  }

  lemma DrainsOneMore(s: seq<u8>, n: nat, query: ColorQuery)
    requires 0 < n <= |s| && Here(s).None? && Drains(s[1..], n - 1, query)
    ensures Drains(s, n, query)
  {
    DropTwice(s, n);
    assert Questions(s) == [] + Questions(s[1..]);
  }

  lemma DrainsHere(s: seq<u8>, query: nat)
    requires Here(s) == Some(query)
    ensures Drains(s, |QUERIES[query].0|, QUERIES[query].1)
  {
    SkipInside(s, |QUERIES[query].0|);
  }

  /** `IsLeftmost`, position by position. */
  predicate FirstAt(s: seq<u8>, position: nat, query: nat)
    decreases position
  {
    if position == 0 then Here(s) == Some(query)
    else |s| > 0 && Here(s).None? && FirstAt(s[1..], position - 1, query)
  }

  lemma {:induction false} LeftmostIsFirst(s: seq<u8>, position: nat, query: nat)
    requires IsLeftmost(s, position, query)
    ensures FirstAt(s, position, query)
    decreases position
  {
    if position == 0 {
      assert s[0..] == s;
    } else {
      LeftmostOfTail(s, position, query);
      LeftmostIsFirst(s[1..], position - 1, query);
    }
  }

  lemma {:induction false} FirstDrains(s: seq<u8>, position: nat, query: nat, n: nat, asked: ColorQuery)
    requires FirstAt(s, position, query) && query < 4 && n == |QUERIES[query].0| && asked == QUERIES[query].1
    ensures Drains(s, position + n, asked)
    decreases position
  {
    if position == 0 {
      DrainsHere(s, query);
    } else {
      FirstDrains(s[1..], position - 1, query, n, asked);
      DrainsOneMore(s, position + n, asked);
    }
  }

  lemma DrainKeepsTheRest(s: seq<u8>, position: nat, query: nat)
    requires IsLeftmost(s, position, query)
    ensures Drains(s, position + |QUERIES[query].0|, QUERIES[query].1)
  {
    LeftmostIsFirst(s, position, query);
    FirstDrains(s, position, query, |QUERIES[query].0|, QUERIES[query].1);
  }

  // ---------------------------------------------------------------------------------------------
  // Cutting the stream
  // ---------------------------------------------------------------------------------------------

  /** Where nothing is asked, only the last seven bytes can still become part of a question. */
  lemma {:induction false} SevenBytesSuffice(s: seq<u8>, t: seq<u8>)
    requires Questions(s) == []
    ensures Questions(s + t) == Questions(LastBytes(s, 7) + t)
    ensures Carry(s + t) == Carry(LastBytes(s, 7) + t)
  {
    if |s| > 7 {
      assert (s + t)[1..] == s[1..] + t;
      NothingNewAtStart(s, t);
      assert LastBytes(s[1..], 7) == LastBytes(s, 7);
      SevenBytesSuffice(s[1..], t);
    }
  }

  /** A question at the start of more bytes that ends within these is one at the start of these. */
  lemma HereWithin(s: seq<u8>, t: seq<u8>)
    ensures Here(s + t).Some? && |QUERIES[Here(s + t).value].0| <= |s| ==> Here(s) == Here(s + t)
    ensures Here(s).Some? ==> Here(s + t) == Here(s)
  {
    if Here(s + t).Some? && |QUERIES[Here(s + t).value].0| <= |s| {
      var pattern := QUERIES[Here(s + t).value].0;
      assert pattern == (s + t)[..|pattern|] == s[..|pattern|];
      OnlyOneHere(s, Here(s + t).value);
    }
    if Here(s).Some? {
      var pattern := QUERIES[Here(s).value].0;
      assert pattern == s[..|pattern|] == (s + t)[..|pattern|];
      OnlyOneHere(s + t, Here(s).value);
    }
  }

  /** A question cannot reach past the start of another. */
  lemma EndsBefore(s: seq<u8>, i: nat)
    requires 0 < i <= |s| && Here(s[i..]).Some?
    ensures Here(s).Some? ==> |QUERIES[Here(s).value].0| <= i
  {
    if Here(s).Some? && i < |QUERIES[Here(s).value].0| {
      NoneInside(s, i);
    }
  }

  lemma NothingNewAtStart(s: seq<u8>, t: seq<u8>)
    requires |s| >= 8 && Here(s).None?
    ensures Here(s + t).None?
    ensures Questions(s + t) == Questions((s + t)[1..])
    ensures Carry(s + t) == Carry((s + t)[1..])
  {
    HereWithin(s, t);
    if Questions(s + t) == [] {
      assert LastBytes((s + t)[1..], 7) == LastBytes(s + t, 7);
    }
  }

  /** A question that needs bytes of `t` would overlap any question within `s`. */
  lemma {:induction false} LaterQuestionBlocks(s: seq<u8>, t: seq<u8>)
    requires Questions(s) != []
    ensures Here(s + t) == Here(s)
    ensures Here(s).None? ==> Questions(s[1..]) != []
  {
    HereWithin(s, t);
    if Here(s).None? {
      var i := SomewhereIn(s);
      assert s[0..] == s && (s + t)[i..] == s[i..] + t;
      HereWithin(s[i..], t);
      EndsBefore(s + t, i);
    }
  }

  lemma {:induction false} SomewhereIn(s: seq<u8>) returns (i: nat)
    requires Questions(s) != []
    ensures i < |s| && Here(s[i..]).Some?
  {
    if Here(s).Some? {
      i := 0;
      assert s[0..] == s;
    } else {
      var j := SomewhereIn(s[1..]);
      i := j + 1;
      assert s[1..][j..] == s[i..];
    }
  }

  /** What was kept of the stream so far stands for all of it. */
  lemma {:induction false} CarryStandsForStream(s: seq<u8>, t: seq<u8>)
    ensures Questions(s + t) == Questions(s) + Questions(Carry(s) + t)
    ensures Carry(s + t) == Carry(Carry(s) + t)
    decreases |s|
  {
    if Questions(s) == [] {
      SevenBytesSuffice(s, t);
    } else {
      LaterQuestionBlocks(s, t);
      if Here(s).Some? {
        var n := |QUERIES[Here(s).value].0|;
        SkipInside(s, n);
        SkipInside(s + t, n);
        DropConcat(s, t, n);
        CarryStandsForStream(s[n..], t);
        Associative([QUERIES[Here(s).value].1], Questions(s[n..]), Questions(Carry(s) + t));
      } else {
        DropConcat(s, t, 1);
        CarryStandsForStream(s[1..], t);
      }
    }
  }

  /** One read, as `Detector.Process` is proved to do it. */
  function Fed(pending: seq<u8>, bytes: seq<u8>): (seq<u8>, seq<ColorQuery>) {
    (Carry(pending + bytes), Questions(pending + bytes))
  }

  function FedAll(pending: seq<u8>, chunks: seq<seq<u8>>): (seq<u8>, seq<ColorQuery>)
    decreases |chunks|
  {
    if |chunks| == 0 then (pending, [])
    else
      var (kept, first) := Fed(pending, chunks[0]);
      var (end, more) := FedAll(kept, chunks[1..]);
      (end, first + more)
  }

  function Joined(chunks: seq<seq<u8>>): seq<u8> {
    if |chunks| == 0 then [] else chunks[0] + Joined(chunks[1..])
  }

  lemma {:induction false} FedAfter(stream: seq<u8>, chunks: seq<seq<u8>>)
    ensures FedAll(Carry(stream), chunks).0 == Carry(stream + Joined(chunks))
    ensures Questions(stream) + FedAll(Carry(stream), chunks).1 == Questions(stream + Joined(chunks))
    decreases |chunks|
  {
    if |chunks| == 0 {
      assert stream + [] == stream;
    } else {
      CarryStandsForStream(stream, chunks[0]);
      FedAfter(stream + chunks[0], chunks[1..]);
      Associative(stream, chunks[0], Joined(chunks[1..]));
      var first := Fed(Carry(stream), chunks[0]);
      Associative(Questions(stream), first.1, FedAll(first.0, chunks[1..]).1);
    }
  }

  /**
   Main result: cut into reads in any way, a stream makes the detector report exactly the questions of
   the whole stream, and leaves it with the same bytes pending.
   */
  lemma AnySplitReportsAll(chunks: seq<seq<u8>>)
    ensures FedAll([], chunks) == (Carry(Joined(chunks)), Questions(Joined(chunks)))
  {
    assert Carry([]) == [];
    assert [] + Joined(chunks) == Joined(chunks);
    FedAfter([], chunks);
    assert [] + FedAll([], chunks).1 == FedAll([], chunks).1;
  }

  /** The question itself: which colour is the digit behind `ESC ] 1`, and either terminator will do. */
  lemma QuestionIsReported(background: bool, bell: bool)
    ensures var question := [0x1b, 0x5d, 0x31, if background then 0x31 else 0x30, 0x3b, 0x3f];
            Questions(question + if bell then [0x07] else [0x1b, 0x5c]) ==
            [if background then Background else Foreground]
  {
    var s: seq<u8> := [0x1b, 0x5d, 0x31, if background then 0x31 else 0x30, 0x3b, 0x3f]
                      + if bell then [0x07] else [0x1b, 0x5c];
    var query := (if bell then 2 else 0) + if background then 1 else 0;
    assert s == QUERIES[query].0;
    StartsWithQuestion(s, query);
    NoneAfterFirst(s[1..]);
  }

  lemma StartsWithQuestion(s: seq<u8>, query: nat)
    requires query < 4 && s == QUERIES[query].0
    ensures Here(s) == Some(query)
  {
    assert forall i | 0 <= i < 4 && i != query :: !(QUERIES[i].0 <= s) by {
      assert QUERIES[0].0[3] == QUERIES[2].0[3] == 0x30 && QUERIES[1].0[3] == QUERIES[3].0[3] == 0x31;
      assert QUERIES[0].0[6] == QUERIES[1].0[6] == 0x1b && QUERIES[2].0[6] == QUERIES[3].0[6] == 0x07;
    }
  }

  lemma HereStarts(s: seq<u8>)
    ensures Here(s).Some? ==> |s| >= 2 && s[0] == 0x1b && s[1] == 0x5d
  {
    if Here(s).Some? {
      var query := QUERIES[Here(s).value].0;
      assert |query| >= 2 && query[0] == 0x1b && query[1] == 0x5d;
      assert query[0] == s[0] && query[1] == s[1];
    }
  }

  /** Without the two bytes every question starts with there is none. */
  lemma {:induction false} NoneAfterFirst(s: seq<u8>)
    requires forall i | 0 <= i < |s| - 1 :: !(s[i] == 0x1b && s[i + 1] == 0x5d)
    ensures Questions(s) == []
  {
    if |s| > 0 {
      HereStarts(s);
      assert forall i | 0 <= i < |s[1..]| :: s[1..][i] == s[i + 1];
      NoneAfterFirst(s[1..]);
    }
  }
}
