/**
 What the outcomes of one poll do to a list of archived conversations, and when the order in which they
 are applied makes no difference. The server acts on its agents in their order; its events tell all quits
 first and the switches after them.
 */
module FilingOrder {
  import opened Basics
  import opened SessionRuntime

  function SwitchArchive(
    archived: seq<ArchivedConversation>, record: Option<ArchivedConversation>, reactivated: Option<ConversationId>)
    : seq<ArchivedConversation>
  {
    var kept := if reactivated.Some? then Others(archived, reactivated.value) else archived;
    if record.Some? then Filed(kept, record.value) else kept
  }

  function AfterOutcome(archived: seq<ArchivedConversation>, outcome: Outcome): seq<ArchivedConversation> {
    match outcome
    case QuitArchived(_, record) => Filed(archived, record)
    case Switched(_, record, reactivated) => SwitchArchive(archived, record, reactivated)
    case _ => archived
  }

  function AfterOutcomes(archived: seq<ArchivedConversation>, outcomes: seq<Outcome>): seq<ArchivedConversation>
    decreases |outcomes|
  {
    if |outcomes| == 0 then archived else AfterOutcomes(AfterOutcome(archived, outcomes[0]), outcomes[1..])
  }

  const ANY: nat := 3

  predicate HasKind(outcome: Outcome, kind: nat) {
    || (kind == 0 && outcome.QuitArchived?) || (kind == 1 && outcome.QuitRemoved?) || (kind == 2 && outcome.Switched?)
    || kind == ANY
  }

  function OnlyKind(outcomes: seq<Outcome>, kind: nat): seq<Outcome> {
    if |outcomes| == 0 then []
    else (if HasKind(outcomes[0], kind) then [outcomes[0]] else []) + OnlyKind(outcomes[1..], kind)
  }

  /** The outcomes in the order in which their events are sent. */
  function InEventOrder(outcomes: seq<Outcome>): seq<Outcome> {
    OnlyKind(outcomes, 0) + (OnlyKind(outcomes, 1) + OnlyKind(outcomes, 2))
  }

  // ---------------------------------------------------------------------------------------------
  // What a list of outcomes leaves behind
  // ---------------------------------------------------------------------------------------------

  /** The record an outcome files. */
  function FiledBy(outcome: Outcome): seq<ArchivedConversation> {
    match outcome
    case QuitArchived(_, record) => [record]
    case Switched(_, Some(record), _) => [record]
    case _ => []
  }

  /** The conversations an outcome files or takes out. */
  function TouchedBy(outcome: Outcome): set<ConversationId> {
    match outcome
    case QuitArchived(_, record) => {record.id}
    case Switched(_, record, reactivated) =>
      (if record.Some? then {record.value.id} else {}) + (if reactivated.Some? then {reactivated.value} else {})
    case _ => {}
  }

  function TouchedByAny(outcomes: seq<Outcome>): set<ConversationId> {
    if |outcomes| == 0 then {} else TouchedBy(outcomes[0]) + TouchedByAny(outcomes[1..])
  }

  function Untouched(archived: seq<ArchivedConversation>, ids: set<ConversationId>): seq<ArchivedConversation> {
    if |archived| == 0 then []
    else if archived[0].id in ids then Untouched(archived[1..], ids)
    else [archived[0]] + Untouched(archived[1..], ids)
  }

  /** The records filed and not touched again afterwards, newest first. */
  function LastFiled(outcomes: seq<Outcome>): seq<ArchivedConversation> {
    if |outcomes| == 0 then []
    else LastFiled(outcomes[1..]) + Untouched(FiledBy(outcomes[0]), TouchedByAny(outcomes[1..]))
  }

  lemma {:induction false} UntouchedConcat(
    a: seq<ArchivedConversation>, b: seq<ArchivedConversation>, ids: set<ConversationId>)
    ensures Untouched(a + b, ids) == Untouched(a, ids) + Untouched(b, ids)
  {
    if |a| == 0 {
      assert a + b == b;
    } else {
      assert (a + b)[1..] == a[1..] + b;
      UntouchedConcat(a[1..], b, ids);
    }
  }

  lemma {:induction false} UntouchedTwice(
    archived: seq<ArchivedConversation>, a: set<ConversationId>, b: set<ConversationId>)
    ensures Untouched(Untouched(archived, a), b) == Untouched(archived, a + b)
  {
    if |archived| > 0 {
      UntouchedTwice(archived[1..], a, b);
      var rest := Untouched(archived[1..], a);
      assert ([archived[0]] + rest)[1..] == rest;
    }
  }

  lemma {:induction false} UntouchedByNone(archived: seq<ArchivedConversation>)
    ensures Untouched(archived, {}) == archived
  {
    if |archived| > 0 {
      UntouchedByNone(archived[1..]);
    }
  }

  lemma {:induction false} OthersAreUntouched(archived: seq<ArchivedConversation>, id: ConversationId)
    ensures Others(archived, id) == Untouched(archived, {id})
  {
    if |archived| > 0 {
      OthersAreUntouched(archived[1..], id);
    }
  }

  lemma AfterOutcomeSplits(archived: seq<ArchivedConversation>, outcome: Outcome)
    ensures AfterOutcome(archived, outcome) == FiledBy(outcome) + Untouched(archived, TouchedBy(outcome))
  {
    UntouchedByNone(archived);
    match outcome {
      case QuitArchived(_, record) => OthersAreUntouched(archived, record.id);
      case Switched(_, record, reactivated) =>
        var taken := if reactivated.Some? then {reactivated.value} else {};
        var kept := Untouched(archived, taken);
        if reactivated.Some? {
          OthersAreUntouched(archived, reactivated.value);
        }
        if record.Some? {
          OthersAreUntouched(kept, record.value.id);
          UntouchedTwice(archived, taken, {record.value.id});
          assert taken + {record.value.id} == TouchedBy(outcome);
        } else {
          assert taken == TouchedBy(outcome);
        }
      case _ =>
    }
  }

  /** The archive after any outcomes: what they filed last, and what they did not touch. */
  lemma {:induction false} AfterOutcomesSplits(archived: seq<ArchivedConversation>, outcomes: seq<Outcome>)
    ensures AfterOutcomes(archived, outcomes) == LastFiled(outcomes) + Untouched(archived, TouchedByAny(outcomes))
    decreases |outcomes|
  {
    if |outcomes| == 0 {
      UntouchedByNone(archived);
    } else {
      var first, rest := outcomes[0], outcomes[1..];
      var left := Untouched(archived, TouchedBy(first));
      AfterOutcomeSplits(archived, first);
      AfterOutcomesSplits(FiledBy(first) + left, rest);
      UntouchedConcat(FiledBy(first), left, TouchedByAny(rest));
      UntouchedTwice(archived, TouchedBy(first), TouchedByAny(rest));
    }
  }

  lemma {:induction false} TouchedConcat(a: seq<Outcome>, b: seq<Outcome>)
    ensures TouchedByAny(a + b) == TouchedByAny(a) + TouchedByAny(b)
  {
    if |a| == 0 {
      assert a + b == b;
    } else {
      assert (a + b)[1..] == a[1..] + b;
      TouchedConcat(a[1..], b);
    }
  }

  lemma {:induction false} TouchedByKinds(outcomes: seq<Outcome>)
    ensures TouchedByAny(OnlyKind(outcomes, 0)) + TouchedByAny(OnlyKind(outcomes, 1))
            + TouchedByAny(OnlyKind(outcomes, 2))
         == TouchedByAny(outcomes)
  {
    if |outcomes| > 0 {
      TouchedByKinds(outcomes[1..]);
      TouchedByKind(outcomes, 0);
      TouchedByKind(outcomes, 1);
      TouchedByKind(outcomes, 2);
    }
  }

  lemma TouchedByKind(outcomes: seq<Outcome>, kind: nat)
    requires |outcomes| > 0
    ensures TouchedByAny(OnlyKind(outcomes, kind)) ==
            (if HasKind(outcomes[0], kind) then TouchedBy(outcomes[0]) else {})
              + TouchedByAny(OnlyKind(outcomes[1..], kind))
  {
    var rest := OnlyKind(outcomes[1..], kind);
    if HasKind(outcomes[0], kind) {
      assert ([outcomes[0]] + rest)[1..] == rest;
    } else {
      assert [] + rest == rest;
    }
  }

  lemma SameTail<T>(a: seq<T>, b: seq<T>, c: seq<T>)
    ensures a + c == b + c <==> a == b
  {
    if a + c == b + c {
      assert |a| == |b|;
      assert a == (a + c)[..|a|] && b == (b + c)[..|a|];
    }
  }

  /**
   Whatever was archived before: the order of the events makes no difference exactly if the same records are
   filed last, in the same order.
   */
  lemma EventOrderExactly(archived: seq<ArchivedConversation>, outcomes: seq<Outcome>)
    ensures AfterOutcomes(archived, InEventOrder(outcomes)) == AfterOutcomes(archived, outcomes) <==>
            LastFiled(InEventOrder(outcomes)) == LastFiled(outcomes)
  {
    var sent := InEventOrder(outcomes);
    AfterOutcomesSplits(archived, outcomes);
    AfterOutcomesSplits(archived, sent);
    TouchedConcat(OnlyKind(outcomes, 0), OnlyKind(outcomes, 1) + OnlyKind(outcomes, 2));
    TouchedConcat(OnlyKind(outcomes, 1), OnlyKind(outcomes, 2));
    TouchedByKinds(outcomes);
    assert TouchedByAny(sent) == TouchedByAny(outcomes);
    SameTail(LastFiled(sent), LastFiled(outcomes), Untouched(archived, TouchedByAny(outcomes)));
  }

  lemma {:induction false} NoQuitsArchived(outcomes: seq<Outcome>)
    requires forall i | 0 <= i < |outcomes| :: !outcomes[i].QuitArchived?
    ensures OnlyKind(outcomes, 0) == []
  {
    if |outcomes| > 0 {
      assert forall i | 0 <= i < |outcomes[1..]| :: outcomes[1..][i] == outcomes[i + 1];
      NoQuitsArchived(outcomes[1..]);
    }
  }

  /** Every archived quit comes before every switch. */
  predicate QuitsFirst(outcomes: seq<Outcome>) {
    forall i, j | 0 <= i < j < |outcomes| :: outcomes[i].Switched? ==> !outcomes[j].QuitArchived?
  }

  lemma {:induction false} Regrouped(archived: seq<ArchivedConversation>, outcomes: seq<Outcome>)
    requires QuitsFirst(outcomes)
    ensures AfterOutcomes(AfterOutcomes(archived, OnlyKind(outcomes, 0)), OnlyKind(outcomes, 2)) ==
            AfterOutcomes(archived, outcomes)
    decreases |outcomes|
  {
    if |outcomes| > 0 {
      var first, rest := outcomes[0], outcomes[1..];
      assert forall i | 0 <= i < |rest| :: rest[i] == outcomes[i + 1];
      assert QuitsFirst(rest);
      Regrouped(AfterOutcome(archived, first), rest);
      var quits, switches := OnlyKind(rest, 0), OnlyKind(rest, 2);
      assert [] + quits == quits && [] + switches == switches;
      assert ([first] + quits)[1..] == quits && ([first] + switches)[1..] == switches;
      if first.Switched? {
        NoQuitsArchived(rest);
      }
    }
  }

  lemma {:induction false} RemovalsChangeNothing(archived: seq<ArchivedConversation>, outcomes: seq<Outcome>)
    ensures AfterOutcomes(archived, OnlyKind(outcomes, 1)) == archived
    decreases |outcomes|
  {
    if |outcomes| > 0 {
      RemovalsChangeNothing(archived, outcomes[1..]);
      var rest := OnlyKind(outcomes[1..], 1);
      if outcomes[0].QuitRemoved? {
        assert ([outcomes[0]] + rest)[1..] == rest;
      } else {
        assert [] + rest == rest;
      }
    }
  }

  lemma {:induction false} AfterConcat(archived: seq<ArchivedConversation>, a: seq<Outcome>, b: seq<Outcome>)
    ensures AfterOutcomes(archived, a + b) == AfterOutcomes(AfterOutcomes(archived, a), b)
    decreases |a|
  {
    if |a| == 0 {
      assert a + b == b;
    } else {
      assert (a + b)[1..] == a[1..] + b;
      AfterConcat(AfterOutcome(archived, a[0]), a[1..], b);
    }
  }

  lemma AfterInEventOrder(archived: seq<ArchivedConversation>, outcomes: seq<Outcome>)
    ensures AfterOutcomes(archived, InEventOrder(outcomes)) ==
            AfterOutcomes(AfterOutcomes(archived, OnlyKind(outcomes, 0)), OnlyKind(outcomes, 2))
  {
    AfterConcat(archived, OnlyKind(outcomes, 0), OnlyKind(outcomes, 1) + OnlyKind(outcomes, 2));
    var quit := AfterOutcomes(archived, OnlyKind(outcomes, 0));
    AfterConcat(quit, OnlyKind(outcomes, 1), OnlyKind(outcomes, 2));
    RemovalsChangeNothing(quit, outcomes);
  }

  /** Whoever is touched twice: with every archived quit before every switch the order makes no difference. */
  lemma QuitsFirstSuffices(outcomes: seq<Outcome>)
    requires QuitsFirst(outcomes)
    ensures LastFiled(InEventOrder(outcomes)) == LastFiled(outcomes)
  {
    Regrouped([], outcomes);
    AfterInEventOrder([], outcomes);
    EventOrderExactly([], outcomes);
  }

  // ---------------------------------------------------------------------------------------------
  // Whatever the outcomes share
  // ---------------------------------------------------------------------------------------------

  /** The position of the last outcome of a kind that touches a conversation, or -1. */
  function Last(outcomes: seq<Outcome>, kind: nat, id: ConversationId): (p: int)
    ensures -1 <= p < |outcomes|
    ensures p >= 0 ==> HasKind(outcomes[p], kind) && id in TouchedBy(outcomes[p])
  {
    if |outcomes| == 0 then -1
    else
      var later := Last(outcomes[1..], kind, id);
      if later >= 0 then later + 1
      else if HasKind(outcomes[0], kind) && id in TouchedBy(outcomes[0]) then 0
      else -1
  }

  /** The record that the outcome at a position files of a conversation, if it files one. */
  function FiledUnder(outcomes: seq<Outcome>, p: int, id: ConversationId): seq<ArchivedConversation>
    requires -1 <= p < |outcomes|
  {
    if p >= 0 && |FiledBy(outcomes[p])| == 1 && FiledBy(outcomes[p])[0].id == id then FiledBy(outcomes[p]) else []
  }

  lemma {:induction false} TouchedLast(outcomes: seq<Outcome>, kind: nat, id: ConversationId)
    ensures id in TouchedByAny(OnlyKind(outcomes, kind)) <==> Last(outcomes, kind, id) >= 0
  {
    if |outcomes| > 0 {
      TouchedLast(outcomes[1..], kind, id);
      TouchedByKind(outcomes, kind);
    }
  }

  lemma {:induction false} AnyIsAll(outcomes: seq<Outcome>)
    ensures OnlyKind(outcomes, ANY) == outcomes
  {
    if |outcomes| > 0 {
      AnyIsAll(outcomes[1..]);
    }
  }

  lemma {:induction false} AnyIsQuitOrSwitch(outcomes: seq<Outcome>, id: ConversationId)
    ensures var quit, switch := Last(outcomes, 0, id), Last(outcomes, 2, id);
            Last(outcomes, ANY, id) == if quit > switch then quit else switch
  {
    if |outcomes| > 0 {
      AnyIsQuitOrSwitch(outcomes[1..], id);
    }
  }

  lemma KeptOfOne(outcome: Outcome, ids: set<ConversationId>, record: ArchivedConversation)
    ensures record in Untouched(FiledBy(outcome), ids) <==> FiledBy(outcome) == [record] && record.id !in ids
    ensures |Untouched(FiledBy(outcome), ids)| <= 1
    ensures FiledBy(outcome) == [record] ==> record.id in TouchedBy(outcome)
  {
    var filed := FiledBy(outcome);
    if |filed| == 1 {
      assert filed[1..] == [];
    }
  }

  /** What the outcomes of a kind file last, told by position. */
  lemma {:induction false} LastFiledHas(outcomes: seq<Outcome>, kind: nat, record: ArchivedConversation)
    ensures record in LastFiled(OnlyKind(outcomes, kind)) <==>
            FiledUnder(outcomes, Last(outcomes, kind, record.id), record.id) == [record]
  {
    if |outcomes| > 0 {
      var first, rest := outcomes[0], outcomes[1..];
      var others := OnlyKind(rest, kind);
      LastFiledHas(rest, kind, record);
      TouchedLast(rest, kind, record.id);
      KeptOfOne(first, TouchedByAny(others), record);
      LastFiledHead(outcomes, kind);
    }
  }

  lemma LastFiledHead(outcomes: seq<Outcome>, kind: nat)
    requires |outcomes| > 0
    ensures var others := OnlyKind(outcomes[1..], kind);
            LastFiled(OnlyKind(outcomes, kind)) == LastFiled(others)
              + if HasKind(outcomes[0], kind) then Untouched(FiledBy(outcomes[0]), TouchedByAny(others)) else []
  {
    var others := OnlyKind(outcomes[1..], kind);
    if HasKind(outcomes[0], kind) {
      assert ([outcomes[0]] + others)[1..] == others;
    } else {
      assert [] + others == others && LastFiled(others) + [] == LastFiled(others);
    }
  }

  predicate Falls(records: seq<ArchivedConversation>, place: ConversationId -> int) {
    forall i, j | 0 <= i < j < |records| :: place(records[i].id) > place(records[j].id)
  }

  /** Newest first: the later an outcome, the further in front what it files. */
  lemma {:induction false} LastFiledFalls(outcomes: seq<Outcome>, kind: nat)
    ensures Falls(LastFiled(OnlyKind(outcomes, kind)), id => Last(outcomes, kind, id))
  {
    if |outcomes| > 0 {
      var first, rest := outcomes[0], outcomes[1..];
      var before := LastFiled(OnlyKind(rest, kind));
      LastFiledFalls(rest, kind);
      LastFiledHead(outcomes, kind);
      forall i | 0 <= i < |before|
        ensures Last(outcomes, kind, before[i].id) == Last(rest, kind, before[i].id) + 1 > 0
      {
        assert before[i] in before;
        LastFiledHas(rest, kind, before[i]);
      }
      var filed := Untouched(FiledBy(first), TouchedByAny(OnlyKind(rest, kind)));
      if HasKind(first, kind) && |filed| > 0 {
        KeptOfOne(first, TouchedByAny(OnlyKind(rest, kind)), filed[0]);
        TouchedLast(rest, kind, filed[0].id);
      }
    }
  }

  lemma {:induction false} UntouchedHas(
    archived: seq<ArchivedConversation>, ids: set<ConversationId>, record: ArchivedConversation)
    ensures record in Untouched(archived, ids) <==> record in archived && record.id !in ids
  {
    if |archived| > 0 {
      UntouchedHas(archived[1..], ids, record);
    }
  }

  lemma {:induction false} UntouchedFalls(
    archived: seq<ArchivedConversation>, ids: set<ConversationId>, place: ConversationId -> int)
    requires Falls(archived, place)
    ensures Falls(Untouched(archived, ids), place)
  {
    if |archived| > 0 {
      var rest := Untouched(archived[1..], ids);
      assert forall i | 0 <= i < |archived[1..]| :: archived[1..][i] == archived[i + 1];
      UntouchedFalls(archived[1..], ids, place);
      forall i | 0 <= i < |rest|
        ensures place(archived[0].id) > place(rest[i].id)
      {
        UntouchedHas(archived[1..], ids, rest[i]);
      }
    }
  }

  lemma HasFirst(records: seq<ArchivedConversation>)
    ensures records == [] || exists record :: record in records
  {
    if records != [] {
      assert records[0] in records;
    }
  }

  lemma FirstIsHighest(records: seq<ArchivedConversation>, place: ConversationId -> int, k: nat)
    requires Falls(records, place) && k < |records|
    ensures records[k] == records[0] || place(records[0].id) > place(records[k].id)
  {
  }

  lemma SameFirst(
    a: seq<ArchivedConversation>, b: seq<ArchivedConversation>, f: ConversationId -> int, g: ConversationId -> int)
    requires |a| > 0 && |b| > 0 && a[0] in b && b[0] in a && Falls(a, f) && Falls(b, g)
    requires f(a[0].id) > f(b[0].id) ==> g(a[0].id) > g(b[0].id)
    ensures a[0] == b[0]
  {
    var k :| 0 <= k < |b| && b[k] == a[0];
    var m :| 0 <= m < |a| && a[m] == b[0];
    FirstIsHighest(b, g, k);
    FirstIsHighest(a, f, m);
  }

  /** Two lists in which everything has its place are the same if they hold the same records in the same places. */
  lemma {:induction false} SamePlaces(
    a: seq<ArchivedConversation>, b: seq<ArchivedConversation>, f: ConversationId -> int, g: ConversationId -> int)
    requires Falls(a, f) && Falls(b, g) && forall record :: record in a <==> record in b
    requires forall r, s | r in a && s in a && f(r.id) > f(s.id) :: g(r.id) > g(s.id)
    ensures a == b
  {
    HasFirst(b);
    if |a| == 0 {
    } else {
      assert a[0] in a && b[0] in b;
      SameFirst(a, b, f, g);
      TailHas(a, f);
      TailHas(b, g);
      SamePlaces(a[1..], b[1..], f, g);
    }
  }

  lemma OneOrder(
    a: seq<ArchivedConversation>, f: ConversationId -> int, g: ConversationId -> int,
    r: ArchivedConversation, s: ArchivedConversation)
    requires Falls(a, f) && Falls(a, g) && r in a && s in a && f(r.id) > f(s.id)
    ensures g(r.id) > g(s.id)
  {
    var i :| 0 <= i < |a| && a[i] == r;
    var j :| 0 <= j < |a| && a[j] == s;
  }

  lemma TailHas(a: seq<ArchivedConversation>, f: ConversationId -> int)
    requires Falls(a, f) && |a| > 0
    ensures Falls(a[1..], f) && forall record :: record in a[1..] <==> record in a && record != a[0]
  {
  }

  /** Where the client puts what is filed of a conversation: behind all switches what only a quit has filed. */
  function Place(outcomes: seq<Outcome>, id: ConversationId): int {
    var switch := Last(outcomes, 2, id);
    if switch >= 0 then |outcomes| + switch else Last(outcomes, 0, id)
  }

  /** And what it files there. */
  function FiledLast(outcomes: seq<Outcome>, id: ConversationId): seq<ArchivedConversation> {
    var switch := Last(outcomes, 2, id);
    FiledUnder(outcomes, if switch >= 0 then switch else Last(outcomes, 0, id), id)
  }

  /** What the client files last is what the switches file, and of the rest what the quits do. */
  lemma SentFiles(outcomes: seq<Outcome>)
    ensures var quits, switches := OnlyKind(outcomes, 0), OnlyKind(outcomes, 2);
            LastFiled(InEventOrder(outcomes)) ==
              LastFiled(switches) + Untouched(LastFiled(quits), TouchedByAny(switches))
  {
    var quits, switches := OnlyKind(outcomes, 0), OnlyKind(outcomes, 2);
    AfterInEventOrder([], outcomes);
    AfterOutcomesSplits([], InEventOrder(outcomes));
    AfterOutcomesSplits([], quits);
    AfterOutcomesSplits(LastFiled(quits), switches);
    assert LastFiled(quits) + [] == LastFiled(quits);
  }

  lemma SentHas(outcomes: seq<Outcome>, record: ArchivedConversation)
    ensures record in LastFiled(InEventOrder(outcomes)) <==> FiledLast(outcomes, record.id) == [record]
  {
    SentFiles(outcomes);
    LastFiledHas(outcomes, 0, record);
    LastFiledHas(outcomes, 2, record);
    TouchedLast(outcomes, 2, record.id);
    UntouchedHas(LastFiled(OnlyKind(outcomes, 0)), TouchedByAny(OnlyKind(outcomes, 2)), record);
  }

  lemma SentFalls(outcomes: seq<Outcome>)
    ensures Falls(LastFiled(InEventOrder(outcomes)), id => Place(outcomes, id))
  {
    var quits, switches := OnlyKind(outcomes, 0), OnlyKind(outcomes, 2);
    var front, back := LastFiled(switches), Untouched(LastFiled(quits), TouchedByAny(switches));
    SentFiles(outcomes);
    LastFiledFalls(outcomes, 0);
    LastFiledFalls(outcomes, 2);
    UntouchedFalls(LastFiled(quits), TouchedByAny(switches), id => Last(outcomes, 0, id));
    forall i | 0 <= i < |front|
      ensures Place(outcomes, front[i].id) == |outcomes| + Last(outcomes, 2, front[i].id) >= |outcomes|
    {
      LastFiledHas(outcomes, 2, front[i]);
    }
    forall i | 0 <= i < |back|
      ensures Place(outcomes, back[i].id) == Last(outcomes, 0, back[i].id) < |outcomes|
    {
      UntouchedHas(LastFiled(quits), TouchedByAny(switches), back[i]);
      TouchedLast(outcomes, 2, back[i].id);
    }
  }

  /** What the server has filed of a conversation last. */
  function FiledFinally(outcomes: seq<Outcome>, id: ConversationId): seq<ArchivedConversation> {
    FiledUnder(outcomes, Last(outcomes, ANY, id), id)
  }

  /**
   Of a conversation that a quit files last, the last switch to touch it, if there is one, files the very
   same record.
   */
  predicate AgreeOn(outcomes: seq<Outcome>, id: ConversationId) {
    var p, switch := Last(outcomes, ANY, id), Last(outcomes, 2, id);
    p >= 0 && outcomes[p].QuitArchived? && switch >= 0 ==>
      FiledUnder(outcomes, switch, id) == FiledFinally(outcomes, id)
  }

  predicate IsFiled(outcomes: seq<Outcome>, id: ConversationId) {
    FiledFinally(outcomes, id) != []
  }

  ghost predicate SwitchesAgree(outcomes: seq<Outcome>) {
    forall id :: AgreeOn(outcomes, id)
  }

  /**
   The conversations filed last come in the order of the last switches to touch them, those no switch touches
   first.
   */
  ghost predicate SwitchesInOrder(outcomes: seq<Outcome>) {
    forall a, b | IsFiled(outcomes, a) && IsFiled(outcomes, b) && Last(outcomes, ANY, a) < Last(outcomes, ANY, b) ::
      Last(outcomes, 2, a) <= Last(outcomes, 2, b)
  }

  lemma FilingAgrees(outcomes: seq<Outcome>, id: ConversationId)
    ensures FiledLast(outcomes, id) == FiledFinally(outcomes, id) <==> AgreeOn(outcomes, id)
  {
    AnyIsQuitOrSwitch(outcomes, id);
  }

  lemma ServerHas(outcomes: seq<Outcome>, record: ArchivedConversation)
    ensures record in LastFiled(outcomes) <==> FiledFinally(outcomes, record.id) == [record]
  {
    AnyIsAll(outcomes);
    LastFiledHas(outcomes, ANY, record);
  }

  /** If both lists hold the same records, both have filed the same last of every conversation. */
  lemma SameRecordsAgree(outcomes: seq<Outcome>, id: ConversationId)
    requires forall record :: record in LastFiled(InEventOrder(outcomes)) <==> record in LastFiled(outcomes)
    ensures AgreeOn(outcomes, id)
  {
    FilingAgrees(outcomes, id);
    var client, server := FiledLast(outcomes, id), FiledFinally(outcomes, id);
    if client != [] {
      assert client == [client[0]];
      SentHas(outcomes, client[0]);
      ServerHas(outcomes, client[0]);
    }
    if server != [] {
      assert server == [server[0]];
      SentHas(outcomes, server[0]);
      ServerHas(outcomes, server[0]);
    }
  }

  /**
   Where they agree on two conversations, the client has them in the server's order exactly if their last
   switches are in order.
   */
  lemma PlacedInOrder(outcomes: seq<Outcome>, a: ConversationId, b: ConversationId)
    requires AgreeOn(outcomes, a) && AgreeOn(outcomes, b) && IsFiled(outcomes, a) && IsFiled(outcomes, b)
    requires Last(outcomes, ANY, a) < Last(outcomes, ANY, b)
    ensures Place(outcomes, a) < Place(outcomes, b) <==> Last(outcomes, 2, a) <= Last(outcomes, 2, b)
  {
    AnyIsQuitOrSwitch(outcomes, a);
    AnyIsQuitOrSwitch(outcomes, b);
    FilingAgrees(outcomes, a);
    FilingAgrees(outcomes, b);
  }

  /**
   Main result: whatever conversations the outcomes share, the event order keeps the archive exactly if the
   switches agree with the quits that follow them, and what is filed comes in the order of the switches.
   */
  lemma PlacesExactly(outcomes: seq<Outcome>)
    ensures LastFiled(InEventOrder(outcomes)) == LastFiled(outcomes) <==>
            SwitchesAgree(outcomes) && SwitchesInOrder(outcomes)
  {
    if LastFiled(InEventOrder(outcomes)) == LastFiled(outcomes) {
      forall id
        ensures AgreeOn(outcomes, id)
      {
        SameRecordsAgree(outcomes, id);
      }
      forall a, b | IsFiled(outcomes, a) && IsFiled(outcomes, b) && Last(outcomes, ANY, a) < Last(outcomes, ANY, b)
        ensures Last(outcomes, 2, a) <= Last(outcomes, 2, b)
      {
        SameOrderSwitches(outcomes, a, b);
      }
    } else if SwitchesAgree(outcomes) && SwitchesInOrder(outcomes) {
      SwitchesKeepOrder(outcomes);
    }
  }

  lemma SameOrderSwitches(outcomes: seq<Outcome>, a: ConversationId, b: ConversationId)
    requires LastFiled(InEventOrder(outcomes)) == LastFiled(outcomes)
    requires IsFiled(outcomes, a) && IsFiled(outcomes, b) && Last(outcomes, ANY, a) < Last(outcomes, ANY, b)
    ensures Last(outcomes, 2, a) <= Last(outcomes, 2, b)
  {
    var r, s := FiledFinally(outcomes, a)[0], FiledFinally(outcomes, b)[0];
    SameRecordsAgree(outcomes, a);
    SameRecordsAgree(outcomes, b);
    PlacedInOrder(outcomes, a, b);
    ServerHas(outcomes, r);
    ServerHas(outcomes, s);
    AnyIsAll(outcomes);
    LastFiledFalls(outcomes, ANY);
    SentFalls(outcomes);
    OneOrder(LastFiled(outcomes), id => Last(outcomes, ANY, id), id => Place(outcomes, id), s, r);
  }

  lemma SwitchesKeepOrder(outcomes: seq<Outcome>)
    requires SwitchesAgree(outcomes) && SwitchesInOrder(outcomes)
    ensures LastFiled(InEventOrder(outcomes)) == LastFiled(outcomes)
  {
    var sent, filed := LastFiled(InEventOrder(outcomes)), LastFiled(outcomes);
    AnyIsAll(outcomes);
    LastFiledFalls(outcomes, ANY);
    SentFalls(outcomes);
    forall record
      ensures record in filed <==> record in sent
    {
      assert AgreeOn(outcomes, record.id);
      FilingAgrees(outcomes, record.id);
      SentHas(outcomes, record);
      ServerHas(outcomes, record);
    }
    var f, g := id => Last(outcomes, ANY, id), id => Place(outcomes, id);
    forall r, s | r in filed && s in filed && f(r.id) > f(s.id)
      ensures g(r.id) > g(s.id)
    {
      assert AgreeOn(outcomes, r.id) && AgreeOn(outcomes, s.id);
      ServerHas(outcomes, r);
      ServerHas(outcomes, s);
      PlacedInOrder(outcomes, s.id, r.id);
    }
    SamePlaces(filed, sent, f, g);
  }

  // ---------------------------------------------------------------------------------------------
  // Polls in which no conversation is touched twice
  // ---------------------------------------------------------------------------------------------

  predicate Apart(outcomes: seq<Outcome>) {
    |outcomes| > 0 ==> TouchedBy(outcomes[0]) !! TouchedByAny(outcomes[1..]) && Apart(outcomes[1..])
  }

  /** Everything filed, newest first. */
  function AllFiled(outcomes: seq<Outcome>): seq<ArchivedConversation> {
    if |outcomes| == 0 then [] else AllFiled(outcomes[1..]) + FiledBy(outcomes[0])
  }

  lemma {:induction false} ApartFilesAll(outcomes: seq<Outcome>)
    requires Apart(outcomes)
    ensures LastFiled(outcomes) == AllFiled(outcomes)
  {
    if |outcomes| > 0 {
      ApartFilesAll(outcomes[1..]);
      var filed := FiledBy(outcomes[0]);
      if filed != [] {
        assert filed[0].id in TouchedBy(outcomes[0]) && filed[1..] == [];
        assert Untouched(filed, TouchedByAny(outcomes[1..])) ==
          [filed[0]] + Untouched(filed[1..], TouchedByAny(outcomes[1..]));
      }
    }
  }

  lemma {:induction false} ApartConcat(a: seq<Outcome>, b: seq<Outcome>)
    requires Apart(a) && Apart(b) && TouchedByAny(a) !! TouchedByAny(b)
    ensures Apart(a + b)
  {
    if |a| == 0 {
      assert a + b == b;
    } else {
      assert (a + b)[1..] == a[1..] + b;
      ApartConcat(a[1..], b);
      TouchedConcat(a[1..], b);
    }
  }

  lemma {:induction false} AllFiledConcat(a: seq<Outcome>, b: seq<Outcome>)
    ensures AllFiled(a + b) == AllFiled(b) + AllFiled(a)
  {
    if |a| == 0 {
      assert a + b == b;
    } else {
      assert (a + b)[1..] == a[1..] + b;
      AllFiledConcat(a[1..], b);
    }
  }

  lemma {:induction false} KindsApart(outcomes: seq<Outcome>, kind: nat, other: nat)
    requires Apart(outcomes) && kind != other && kind != ANY && other != ANY
    ensures Apart(OnlyKind(outcomes, kind)) && TouchedByAny(OnlyKind(outcomes, kind)) <= TouchedByAny(outcomes)
    ensures TouchedByAny(OnlyKind(outcomes, kind)) !! TouchedByAny(OnlyKind(outcomes, other))
    ensures TouchedByAny(OnlyKind(outcomes, other)) <= TouchedByAny(outcomes)
  {
    if |outcomes| > 0 {
      KindsApart(outcomes[1..], kind, other);
      TouchedByKind(outcomes, kind);
      TouchedByKind(outcomes, other);
      KindHead(outcomes, kind);
    }
  }

  lemma KindHead(outcomes: seq<Outcome>, kind: nat)
    requires |outcomes| > 0
    ensures var rest := OnlyKind(outcomes[1..], kind);
            if HasKind(outcomes[0], kind) then
              && OnlyKind(outcomes, kind) == [outcomes[0]] + rest && OnlyKind(outcomes, kind)[1..] == rest
              && AllFiled(OnlyKind(outcomes, kind)) == AllFiled(rest) + FiledBy(outcomes[0])
            else OnlyKind(outcomes, kind) == rest
  {
    var rest := OnlyKind(outcomes[1..], kind);
    if HasKind(outcomes[0], kind) {
      assert ([outcomes[0]] + rest)[1..] == rest;
    } else {
      assert [] + rest == rest;
    }
  }

  predicate FilesBySwitch(outcome: Outcome) {
    outcome.Switched? && outcome.archived.Some?
  }

  /** No switch that files a record comes before an archived quit. */
  predicate QuitsFileFirst(outcomes: seq<Outcome>) {
    forall i, j | 0 <= i < j < |outcomes| :: FilesBySwitch(outcomes[i]) ==> !outcomes[j].QuitArchived?
  }

  lemma {:induction false} RemovalsFileNothing(outcomes: seq<Outcome>)
    ensures AllFiled(OnlyKind(outcomes, 1)) == []
  {
    if |outcomes| > 0 {
      RemovalsFileNothing(outcomes[1..]);
      KindHead(outcomes, 1);
    }
  }

  lemma AllFiledInEventOrder(outcomes: seq<Outcome>)
    ensures AllFiled(InEventOrder(outcomes)) == AllFiled(OnlyKind(outcomes, 2)) + AllFiled(OnlyKind(outcomes, 0))
  {
    AllFiledConcat(OnlyKind(outcomes, 0), OnlyKind(outcomes, 1) + OnlyKind(outcomes, 2));
    AllFiledConcat(OnlyKind(outcomes, 1), OnlyKind(outcomes, 2));
    RemovalsFileNothing(outcomes);
    var switches := AllFiled(OnlyKind(outcomes, 2));
    assert switches + [] == switches;
  }

  lemma ApartInEventOrder(outcomes: seq<Outcome>)
    requires Apart(outcomes)
    ensures Apart(InEventOrder(outcomes))
  {
    KindsApart(outcomes, 0, 1);
    KindsApart(outcomes, 0, 2);
    KindsApart(outcomes, 1, 2);
    KindsApart(outcomes, 2, 0);
    TouchedConcat(OnlyKind(outcomes, 1), OnlyKind(outcomes, 2));
    ApartConcat(OnlyKind(outcomes, 1), OnlyKind(outcomes, 2));
    ApartConcat(OnlyKind(outcomes, 0), OnlyKind(outcomes, 1) + OnlyKind(outcomes, 2));
  }

  lemma {:induction false} QuitsAreFiled(outcomes: seq<Outcome>)
    ensures (exists j | 0 <= j < |outcomes| :: outcomes[j].QuitArchived?) <==> AllFiled(OnlyKind(outcomes, 0)) != []
    ensures forall record | record in AllFiled(OnlyKind(outcomes, 0)) :: record.id in TouchedByAny(outcomes)
  {
    if |outcomes| > 0 {
      QuitsAreFiled(outcomes[1..]);
      KindHead(outcomes, 0);
      if j :| 0 <= j < |outcomes| && outcomes[j].QuitArchived? {
        assert j > 0 ==> outcomes[1..][j - 1].QuitArchived?;
      }
      if j :| 0 <= j < |outcomes[1..]| && outcomes[1..][j].QuitArchived? {
        assert outcomes[j + 1].QuitArchived?;
      }
    }
  }

  lemma QuitsFileFirstHead(outcomes: seq<Outcome>)
    requires |outcomes| > 0
    ensures QuitsFileFirst(outcomes) <==>
            && QuitsFileFirst(outcomes[1..])
            && (FilesBySwitch(outcomes[0]) ==> AllFiled(OnlyKind(outcomes[1..], 0)) == [])
  {
    var rest := outcomes[1..];
    QuitsAreFiled(rest);
    assert forall i | 0 <= i < |rest| :: rest[i] == outcomes[i + 1];
    if QuitsFileFirst(rest) && (FilesBySwitch(outcomes[0]) ==> AllFiled(OnlyKind(rest, 0)) == []) {
      forall i, j | 0 <= i < j < |outcomes| && FilesBySwitch(outcomes[i])
        ensures !outcomes[j].QuitArchived?
      {
        assert outcomes[j] == rest[j - 1];
        if i > 0 {
          assert outcomes[i] == rest[i - 1];
        }
      }
    }
  }

  lemma {:induction false} FiledInSameOrder(outcomes: seq<Outcome>)
    requires Apart(outcomes)
    ensures AllFiled(OnlyKind(outcomes, 2)) + AllFiled(OnlyKind(outcomes, 0)) == AllFiled(outcomes) <==>
            QuitsFileFirst(outcomes)
  {
    if |outcomes| > 0 {
      var first, rest := outcomes[0], outcomes[1..];
      FiledInSameOrder(rest);
      KindHead(outcomes, 0);
      KindHead(outcomes, 2);
      QuitsFileFirstHead(outcomes);
      var switches, quits, filed := AllFiled(OnlyKind(rest, 2)), AllFiled(OnlyKind(rest, 0)), FiledBy(first);
      assert AllFiled(outcomes) == AllFiled(rest) + filed;
      if FilesBySwitch(first) {
        SwitchFirst(switches, quits, first, rest);
      } else if first.QuitArchived? {
        Associative(switches, quits, filed);
        SameTail(switches + quits, AllFiled(rest), filed);
      } else {
        NothingAfter(switches);
        NothingAfter(AllFiled(rest));
      }
    }
  }

  lemma NothingAfter<T>(s: seq<T>)
    ensures s + [] == s
  {
  }

  lemma SwitchFirst(
    switches: seq<ArchivedConversation>, quits: seq<ArchivedConversation>, first: Outcome, rest: seq<Outcome>)
    requires FilesBySwitch(first) && TouchedBy(first) !! TouchedByAny(rest)
    requires quits == AllFiled(OnlyKind(rest, 0))
    ensures (switches + FiledBy(first)) + quits == AllFiled(rest) + FiledBy(first) <==>
            switches + quits == AllFiled(rest) && quits == []
  {
    var filed := FiledBy(first);
    if quits == [] {
      assert (switches + filed) + quits == switches + filed && switches + quits == switches;
      SameTail(switches, AllFiled(rest), filed);
    } else {
      QuitsAreFiled(rest);
      var last := quits[|quits| - 1];
      assert last in quits;
      assert ((switches + filed) + quits)[|switches| + |filed| + |quits| - 1] == last;
      assert (AllFiled(rest) + filed)[|AllFiled(rest)|] == first.archived.value;
      assert first.archived.value.id in TouchedBy(first);
    }
  }

  /** When no conversation is touched twice: exactly if no switch that files a record comes before an archived quit. */
  lemma ApartExactly(outcomes: seq<Outcome>)
    requires Apart(outcomes)
    ensures LastFiled(InEventOrder(outcomes)) == LastFiled(outcomes) <==> QuitsFileFirst(outcomes)
  {
    ApartInEventOrder(outcomes);
    ApartFilesAll(outcomes);
    ApartFilesAll(InEventOrder(outcomes));
    AllFiledInEventOrder(outcomes);
    FiledInSameOrder(outcomes);
  }
}
