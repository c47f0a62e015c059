/**
 The conversations of every session on disk, one file per session, and what a restarted server makes of
 them. The directory is a map from file names to contents; replacing a file is atomic, and any operation
 on it may fail before or after it took effect.
 */
module ConversationStore {
  import opened Basics
  import opened Frames
  import opened SessionRuntime
  import S = ServerSession
  import K = Conversations

  const INDEX_VERSION: u8 := 1

  datatype ActiveConversation = ActiveConversation(
    conversation: Option<ConversationId>, title: Option<Title>, kind: AgentKind, launch: Directory)

  datatype ConversationIndex = ConversationIndex(
    version: u8, session: S.SessionId, active: seq<ActiveConversation>, archived: seq<ArchivedConversation>)

  /** A session's own file, or some other file with the same extension. */
  datatype FileName = OwnFile(session: S.SessionId) | OtherFile(name: string)

  datatype Content = Index(index: ConversationIndex) | Unreadable

  type Disk = map<FileName, Content>

  // ---------------------------------------------------------------------------------------------
  // Restoring
  // ---------------------------------------------------------------------------------------------

  function Complete(active: seq<ActiveConversation>): seq<ArchivedConversation> {
    if |active| == 0 then []
    else
      var a := active[0];
      (if a.conversation.Some? && a.title.Some? then
         [ArchivedConversation(a.conversation.value, a.title.value, a.kind, a.launch)]
       else [])
      + Complete(active[1..])
  }

  /** The records whose conversation has not been seen before. */
  function Unseen(records: seq<ArchivedConversation>, seen: set<ConversationId>): seq<ArchivedConversation> {
    if |records| == 0 then []
    else if records[0].id in seen then Unseen(records[1..], seen)
    else [records[0]] + Unseen(records[1..], seen + {records[0].id})
  }

  /**
   The active conversations with both identifier and name, then the archived ones; the first of each
   conversation only.
   */
  function Restored(index: ConversationIndex): seq<ArchivedConversation> {
    Unseen(Complete(index.active) + index.archived, {})
  }

  method RestoredConversations(index: ConversationIndex) returns (restored: seq<ArchivedConversation>)
    ensures restored == Restored(index)
  {
    var records := Complete(index.active) + index.archived;
    var seen: set<ConversationId> := {};
    restored := [];
    assert records[0..] == records;
    for i := 0 to |records|
      invariant restored + Unseen(records[i..], seen) == Unseen(records, {})
    {
      assert records[i..][0] == records[i] && records[i..][1..] == records[i + 1..];
      if records[i].id !in seen {
        seen := seen + {records[i].id};
        restored := restored + [records[i]];
      }
    }
    assert restored + [] == restored;
  }

  lemma ArchivedConcat(a: seq<ArchivedConversation>, b: seq<ArchivedConversation>, c: ConversationId)
    ensures K.IsArchived(a + b, c) <==> K.IsArchived(a, c) || K.IsArchived(b, c)
  {
    if K.IsArchived(a, c) {
      var record :| record in a && record.id == c;
      assert record in a + b;
    } else if K.IsArchived(b, c) {
      var record :| record in b && record.id == c;
      assert record in a + b;
    }
  }

  lemma ArchivedSingle(record: ArchivedConversation, c: ConversationId)
    ensures K.IsArchived([record], c) <==> record.id == c
  {
    assert record in [record];
  }

  /** A conversation keeps a record exactly if it had one and was not seen before. */
  lemma {:induction false} UnseenHas(records: seq<ArchivedConversation>, seen: set<ConversationId>, c: ConversationId)
    ensures K.IsArchived(Unseen(records, seen), c) <==> c !in seen && K.IsArchived(records, c)
  {
    if |records| > 0 {
      assert records == [records[0]] + records[1..];
      ArchivedConcat([records[0]], records[1..], c);
      ArchivedSingle(records[0], c);
      if records[0].id in seen {
        UnseenHas(records[1..], seen, c);
      } else {
        var next := seen + {records[0].id};
        UnseenHas(records[1..], next, c);
        ArchivedConcat([records[0]], Unseen(records[1..], next), c);
      }
    }
  }

  lemma {:induction false} UnseenDistinct(records: seq<ArchivedConversation>, seen: set<ConversationId>)
    ensures K.DistinctIds(Unseen(records, seen))
  {
    if |records| > 0 {
      if records[0].id in seen {
        UnseenDistinct(records[1..], seen);
      } else {
        var next := seen + {records[0].id};
        var rest := Unseen(records[1..], next);
        UnseenDistinct(records[1..], next);
        forall i | 0 <= i < |rest|
          ensures rest[i].id != records[0].id
        {
          UnseenHas(records[1..], next, records[0].id);
          assert rest[i] in rest;
        }
      }
    }
  }

  function IdsOf(records: seq<ArchivedConversation>): set<ConversationId> {
    set record | record in records :: record.id
  }

  /** Records are kept in order: those of the first list, then those of the second that are new. */
  lemma {:induction false} UnseenConcat(
    a: seq<ArchivedConversation>, b: seq<ArchivedConversation>, seen: set<ConversationId>)
    ensures Unseen(a + b, seen) == Unseen(a, seen) + Unseen(b, seen + IdsOf(a))
  {
    if |a| == 0 {
      assert a + b == b && seen + IdsOf(a) == seen;
    } else {
      assert (a + b)[1..] == a[1..] + b;
      var next := if a[0].id in seen then seen else seen + {a[0].id};
      UnseenConcat(a[1..], b, next);
      assert a == [a[0]] + a[1..];
      assert IdsOf(a) == {a[0].id} + IdsOf(a[1..]);
      assert next + IdsOf(a[1..]) == seen + IdsOf(a);
    }
  }

  /** Restoring lists the complete active conversations first, and of the archived ones those not active. */
  lemma ActiveComeFirst(index: ConversationIndex)
    ensures Restored(index) ==
            Unseen(Complete(index.active), {}) + Unseen(index.archived, IdsOf(Complete(index.active)))
  {
    UnseenConcat(Complete(index.active), index.archived, {});
    assert {} + IdsOf(Complete(index.active)) == IdsOf(Complete(index.active));
  }

  /** The record kept of a conversation is its first one. */
  lemma {:induction false} UnseenIsFirst(records: seq<ArchivedConversation>, seen: set<ConversationId>, i: nat)
    requires i < |records| && records[i].id !in seen && forall j | 0 <= j < i :: records[j].id != records[i].id
    ensures records[i] in Unseen(records, seen)
  {
    if i > 0 {
      UnseenIsFirst(records[1..], if records[0].id in seen then seen else seen + {records[0].id}, i - 1);
    }
  }

  // ---------------------------------------------------------------------------------------------
  // The store
  // ---------------------------------------------------------------------------------------------

  predicate IsIndex(content: Content) {
    content.Index? && content.index.version == INDEX_VERSION
  }

  /** What reading the directory yields, file by file in the order listed. */
  function Opened(disk: Disk, listing: seq<FileName>): map<S.SessionId, ConversationIndex>
    requires forall f | f in listing :: f in disk
  {
    if |listing| == 0 then map[]
    else
      var rest := Opened(disk, listing[..|listing| - 1]);
      var content := disk[listing[|listing| - 1]];
      if IsIndex(content) then rest[content.index.session := content.index] else rest
  }

  predicate IsEmpty(index: ConversationIndex) {
    index.active == [] && index.archived == []
  }

  /** The indexes by session; of two for the same session the later counts. */
  function Collected(indexes: seq<ConversationIndex>): map<S.SessionId, ConversationIndex> {
    if |indexes| == 0 then map[]
    else
      var last := indexes[|indexes| - 1];
      Collected(indexes[..|indexes| - 1])[last.session := last]
  }

  function NonEmpty(current: map<S.SessionId, ConversationIndex>): map<S.SessionId, ConversationIndex> {
    map x | x in current && !IsEmpty(current[x]) :: current[x]
  }

  datatype Io = Works | FailsBefore | FailsAfter

  class Store {
    /** The directory. */
    var disk: Disk
    var saved: map<S.SessionId, ConversationIndex>

    constructor (disk: Disk, listing: seq<FileName>)
      requires forall f :: f in listing <==> f in disk
      ensures this.disk == disk && saved == Opened(disk, listing)
    {
      this.disk := disk;
      this.saved := map[];
      new;
      var found: map<S.SessionId, ConversationIndex> := map[];
      for i := 0 to |listing|
        invariant found == Opened(disk, listing[..i])
      {
        assert listing[..i + 1][..i] == listing[..i];
        var content := disk[listing[i]];
        if IsIndex(content) {
          found := found[content.index.session := content.index];
        }
      }
      assert listing[..|listing|] == listing;
      saved := found;
    }

    method Write(index: ConversationIndex, io: Io) returns (ok: bool)
      modifies this`disk
      ensures ok <==> io.Works?
      ensures disk == if io.FailsBefore? then old(disk) else old(disk)[OwnFile(index.session) := Index(index)]
    {
      if io.FailsBefore? {
        return false;
      }
      disk := disk[OwnFile(index.session) := Index(index)];
      ok := io.Works?;
    }

    method Remove(x: S.SessionId, io: Io) returns (ok: bool)
      modifies this
      ensures ok <==> OwnFile(x) !in old(disk) || io.Works?
      ensures disk == if OwnFile(x) in old(disk) && io.FailsBefore? then old(disk) else old(disk) - {OwnFile(x)}
      ensures saved == if ok then old(saved) - {x} else old(saved)
    {
      if OwnFile(x) in disk {
        if io.FailsBefore? {
          return false;
        }
        disk := disk - {OwnFile(x)};
        if !io.Works? {
          return false;
        }
      }
      saved := saved - {x};
      ok := true;
    }

    /**
     A sync succeeds exactly if none of the operations it has to do fails. Then the store holds the
     non-empty indexes, every file they differ from has been replaced, and the files of all other sessions
     the store knew are gone. After a failure every file is as it was or as it was to become, the file that
     failed according to when it failed, and the store remembers what it did.
     */
    method Sync(indexes: seq<ConversationIndex>, io: map<S.SessionId, Io>) returns (ok: bool)
      modifies this
      ensures ok <==> forall x | x in io && Attempted(old(disk), old(saved), Collected(indexes), x) :: io[x].Works?
      ensures ok ==> saved == NonEmpty(Collected(indexes))
      ensures ok ==> forall f :: Look(disk, f) == FileAfter(old(disk), old(saved), Collected(indexes), f)
      ensures forall f ::
                || Look(disk, f) == Look(old(disk), f)
                || Look(disk, f) == FileAfter(old(disk), old(saved), Collected(indexes), f)
      ensures !ok ==> Remembers(saved, old(saved), Collected(indexes))
      ensures !ok ==> exists x | x in io && Attempted(old(disk), old(saved), Collected(indexes), x) ::
                        FailedAt(old(disk), old(saved), Collected(indexes), disk, x, io[x])
    {
      var current := Collected(indexes);
      CollectedBySession(indexes);
      ghost var before, known := disk, saved;
      ok := SyncCurrent(current, io);
      if !ok {
        return;
      }
      ok := RemoveUnlisted(current, io);
      if !ok {
        return;
      }
      saved := NonEmpty(current);
      ok := true;
    }

    /** Removes the files of all sessions known but not listed. */
    method RemoveUnlisted(current: map<S.SessionId, ConversationIndex>, io: map<S.SessionId, Io>) returns (ok: bool)
      modifies this
      ensures ok <==> forall x | x in io && x in old(saved) && x !in current && OwnFile(x) in old(disk) :: io[x].Works?
      ensures ok ==> forall f: FileName ::
                Look(disk, f) ==
                  if f.OwnFile? && f.session in old(saved) && f.session !in current then None else Look(old(disk), f)
      ensures forall f: FileName :: Look(disk, f) == Look(old(disk), f) ||
                (f.OwnFile? && f.session in old(saved) && f.session !in current && Look(disk, f).None?)
      ensures Remembers(saved, old(saved), current)
      ensures !ok ==> exists x | x in io && x in old(saved) && x !in current && OwnFile(x) in old(disk) ::
                        FailedAt(old(disk), old(saved), current, disk, x, io[x])
    {
      ghost var before, known := disk, saved;
      var stale := saved.Keys;
      while stale != {}
        invariant stale <= known.Keys && Remembers(saved, known, current)
        invariant forall x | x in known && x !in stale && x !in current && x in io && OwnFile(x) in before ::
                  io[x].Works?
        invariant forall f: FileName ::
                    Look(disk, f) ==
                    if f.OwnFile? && f.session in known && f.session !in stale && f.session !in current then None
                    else Look(before, f)
        decreases stale
      {
        var x :| x in stale;
        stale := stale - {x};
        if x !in current {
          assert Look(disk, OwnFile(x)) == Look(before, OwnFile(x));
          ok := Remove(x, if x in io then io[x] else Works);
          if !ok {
            assert FailedAt(before, known, current, disk, x, io[x]);
            return;
          }
        }
      }
      ok := true;
    }

    /** Writes or removes the file of every session listed. */
    method SyncCurrent(current: map<S.SessionId, ConversationIndex>, io: map<S.SessionId, Io>) returns (ok: bool)
      requires forall x | x in current :: current[x].session == x
      modifies this
      ensures ok <==> forall x | x in io && x in current && Attempted(old(disk), old(saved), current, x) :: io[x].Works?
      ensures ok ==> saved == map x | x in old(saved) && !(x in current && IsEmpty(current[x])) :: old(saved)[x]
      ensures ok ==> forall f: FileName ::
                Look(disk, f) ==
                if f.OwnFile? && f.session in current then FileAfter(old(disk), old(saved), current, f)
                else Look(old(disk), f)
      ensures forall f ::
              Look(disk, f) == Look(old(disk), f) || Look(disk, f) == FileAfter(old(disk), old(saved), current, f)
      ensures Remembers(saved, old(saved), current)
      ensures !ok ==> exists x | x in io && x in current && Attempted(old(disk), old(saved), current, x) ::
                        FailedAt(old(disk), old(saved), current, disk, x, io[x])
    {
      ghost var before, known := disk, saved;
      var todo := current.Keys;
      while todo != {}
        invariant todo <= current.Keys
        invariant saved == map x | x in known && !(x in current && x !in todo && IsEmpty(current[x])) :: known[x]
        invariant forall x | x in current && x !in todo && x in io && Attempted(before, known, current, x) ::
                  io[x].Works?
        invariant forall f: FileName ::
                    Look(disk, f) ==
                    if f.OwnFile? && f.session in current && f.session !in todo then
                      FileAfter(before, known, current, f)
                    else Look(before, f)
        decreases todo
      {
        var x :| x in todo;
        assert Look(disk, OwnFile(x)) == Look(before, OwnFile(x));
        var outcome := if x in io then io[x] else Works;
        ok := true;
        if IsEmpty(current[x]) {
          ok := Remove(x, outcome);
        } else if x !in saved || saved[x] != current[x] {
          ok := Write(current[x], outcome);
        }
        if !ok {
          assert Attempted(before, known, current, x) && FailedAt(before, known, current, disk, x, io[x]);
          return;
        }
        todo := todo - {x};
      }
      ok := true;
    }
  }

  /** The sessions whose files a sync has to write or remove. */
  predicate Attempted(
    disk: Disk, saved: map<S.SessionId, ConversationIndex>, current: map<S.SessionId, ConversationIndex>,
    x: S.SessionId)
  {
    if x in current then
      if IsEmpty(current[x]) then OwnFile(x) in disk else x !in saved || saved[x] != current[x]
    else x in saved && OwnFile(x) in disk
  }

  /** The store remembers nothing new, and has forgotten only sessions whose files were to go. */
  predicate Remembers(
    saved: map<S.SessionId, ConversationIndex>, before: map<S.SessionId, ConversationIndex>,
    current: map<S.SessionId, ConversationIndex>)
  {
    && (forall x | x in saved :: x in before && saved[x] == before[x])
    && (forall x | x in before && x !in saved :: x in current ==> IsEmpty(current[x]))
  }

  /** The operation on this session's file failed, and its file is as the kind of failure says. */
  predicate FailedAt(
    disk: Disk, saved: map<S.SessionId, ConversationIndex>, current: map<S.SessionId, ConversationIndex>, disk': Disk,
    x: S.SessionId, io: Io)
  {
    match io
    case Works => false
    case FailsBefore => Look(disk', OwnFile(x)) == Look(disk, OwnFile(x))
    case FailsAfter => Look(disk', OwnFile(x)) == FileAfter(disk, saved, current, OwnFile(x))
  }

  function Look(disk: Disk, f: FileName): Option<Content> {
    if f in disk then Some(disk[f]) else None
  }

  /** What a successful `sync` makes of a file. */
  function FileAfter(
    disk: Disk, saved: map<S.SessionId, ConversationIndex>, current: map<S.SessionId, ConversationIndex>, f: FileName)
    : Option<Content>
  {
    if f.OtherFile? then Look(disk, f)
    else if f.session in current then
      if IsEmpty(current[f.session]) then None
      else if f.session !in saved || saved[f.session] != current[f.session] then Some(Index(current[f.session]))
      else Look(disk, f)
    else if f.session in saved then None
    else Look(disk, f)
  }

  lemma {:induction false} CollectedBySession(indexes: seq<ConversationIndex>)
    ensures forall x | x in Collected(indexes) :: Collected(indexes)[x].session == x && Collected(indexes)[x] in indexes
  {
    if |indexes| > 0 {
      CollectedBySession(indexes[..|indexes| - 1]);
    }
  }


  // ---------------------------------------------------------------------------------------------
  // The store and the directory
  // ---------------------------------------------------------------------------------------------

  /** Every readable index lies in its own session's file. */
  ghost predicate WellNamed(disk: Disk) {
    forall f | f in disk && IsIndex(disk[f]) :: f == OwnFile(disk[f].index.session)
  }

  /** What the store remembers is what a reader of the directory finds. */
  ghost predicate Agree(saved: map<S.SessionId, ConversationIndex>, disk: Disk) {
    && WellNamed(disk)
    && forall x :: (x in saved <==> OwnFile(x) in disk && IsIndex(disk[OwnFile(x)]))
                   && (x in saved ==> disk[OwnFile(x)] == Index(saved[x]))
  }

  ghost predicate Lists(listing: seq<FileName>, disk: Disk) {
    forall f :: f in listing <==> f in disk
  }

  lemma {:induction false} OpenedFrom(disk: Disk, listing: seq<FileName>)
    requires WellNamed(disk) && forall f | f in listing :: f in disk
    ensures forall x :: x in Opened(disk, listing) <==> OwnFile(x) in listing && IsIndex(disk[OwnFile(x)])
    ensures forall x | x in Opened(disk, listing) :: disk[OwnFile(x)] == Index(Opened(disk, listing)[x])
  {
    if |listing| > 0 {
      var front, last := listing[..|listing| - 1], listing[|listing| - 1];
      OpenedFrom(disk, front);
      assert listing == front + [last];
      assert forall f :: f in listing <==> f in front || f == last;
    }
  }

  /** Opening a well-named directory, in whatever order it is listed, makes the store agree with it. */
  lemma OpenAgrees(disk: Disk, listing: seq<FileName>)
    requires WellNamed(disk) && Lists(listing, disk)
    ensures Agree(Opened(disk, listing), disk)
  {
    OpenedFrom(disk, listing);
  }

  lemma AgreeDetermines(a: map<S.SessionId, ConversationIndex>, b: map<S.SessionId, ConversationIndex>, disk: Disk)
    requires Agree(a, disk) && Agree(b, disk)
    ensures a == b
  {
    assert forall x :: x in a <==> x in b;
  }

  ghost predicate Current(indexes: seq<ConversationIndex>) {
    forall i | 0 <= i < |indexes| :: indexes[i].version == INDEX_VERSION
  }

  /**
   The files a sync leaves alone are right: those it takes for written already, and those of sessions it does
   not know.
   */
  ghost predicate Repairs(
    disk: Disk, saved: map<S.SessionId, ConversationIndex>, current: map<S.SessionId, ConversationIndex>)
  {
    && (forall x | x in current && !IsEmpty(current[x]) && x in saved && saved[x] == current[x] ::
          Look(disk, OwnFile(x)) == Some(Index(current[x])))
    && (forall x | x !in current && x !in saved && OwnFile(x) in disk :: !IsIndex(disk[OwnFile(x)]))
    && (forall f: FileName | f.OtherFile? && f in disk :: !IsIndex(disk[f]))
  }

  /**
   A successful sync, whatever failed before it, makes the store agree with the directory exactly if the
   files it leaves alone are right. After a failure they need not be: a file may have been replaced that
   the store still remembers as it was, or written for a session the store does not know.
   */
  lemma SyncAgreesExactly(
    disk: Disk, saved: map<S.SessionId, ConversationIndex>, indexes: seq<ConversationIndex>, disk': Disk)
    requires Current(indexes)
    requires forall f :: Look(disk', f) == FileAfter(disk, saved, Collected(indexes), f)
    ensures Agree(NonEmpty(Collected(indexes)), disk') <==> Repairs(disk, saved, Collected(indexes))
  {
    var current := Collected(indexes);
    CollectedBySession(indexes);
    if Repairs(disk, saved, current) {
      RepairedAgrees(disk, saved, current, disk');
    }
    if Agree(NonEmpty(current), disk') {
      AgreedRepairs(disk, saved, current, disk');
    }
  }

  lemma RepairedAgrees(
    disk: Disk, saved: map<S.SessionId, ConversationIndex>, current: map<S.SessionId, ConversationIndex>, disk': Disk)
    requires forall x | x in current :: current[x].session == x && current[x].version == INDEX_VERSION
    requires forall f :: Look(disk', f) == FileAfter(disk, saved, current, f)
    requires Repairs(disk, saved, current)
    ensures Agree(NonEmpty(current), disk')
  {
    forall f | f in disk' && IsIndex(disk'[f])
      ensures f.OwnFile? && f.session in current && disk'[f] == Index(current[f.session])
    {
      assert Look(disk', f) == FileAfter(disk, saved, current, f);
      assert f in disk ==> Look(disk, f) == Some(disk[f]);
    }
    forall x
      ensures (x in NonEmpty(current) <==> OwnFile(x) in disk' && IsIndex(disk'[OwnFile(x)]))
              && (x in NonEmpty(current) ==> disk'[OwnFile(x)] == Index(NonEmpty(current)[x]))
    {
      assert Look(disk', OwnFile(x)) == FileAfter(disk, saved, current, OwnFile(x));
    }
  }

  lemma AgreedRepairs(
    disk: Disk, saved: map<S.SessionId, ConversationIndex>, current: map<S.SessionId, ConversationIndex>, disk': Disk)
    requires forall f :: Look(disk', f) == FileAfter(disk, saved, current, f)
    requires Agree(NonEmpty(current), disk')
    ensures Repairs(disk, saved, current)
  {
    forall x | x in current && !IsEmpty(current[x]) && x in saved && saved[x] == current[x]
      ensures Look(disk, OwnFile(x)) == Some(Index(current[x]))
    {
      assert Look(disk', OwnFile(x)) == FileAfter(disk, saved, current, OwnFile(x));
      assert x in NonEmpty(current);
    }
    forall x | x !in current && x !in saved && OwnFile(x) in disk
      ensures !IsIndex(disk[OwnFile(x)])
    {
      assert Look(disk', OwnFile(x)) == FileAfter(disk, saved, current, OwnFile(x));
      assert x !in NonEmpty(current);
    }
    forall f: FileName | f.OtherFile? && f in disk
      ensures !IsIndex(disk[f])
    {
      assert Look(disk', f) == FileAfter(disk, saved, current, f);
    }
  }

  lemma SyncAgrees(disk: Disk, saved: map<S.SessionId, ConversationIndex>, indexes: seq<ConversationIndex>, disk': Disk)
    requires Agree(saved, disk) && Current(indexes)
    requires forall f :: Look(disk', f) == FileAfter(disk, saved, Collected(indexes), f)
    ensures Agree(NonEmpty(Collected(indexes)), disk')
  {
    SyncAgreesExactly(disk, saved, indexes, disk');
  }

  /**
   How it goes wrong: a file is replaced, but the sync reports a failure; the index as it was is synced
   again, successfully, and the file stays as it is. What is reopened is not what was synced last.
   */
  method OutdatedSync(store: Store, index: ConversationIndex, newer: ConversationIndex)
    returns (first: bool, second: bool)
    requires store.saved == map[index.session := index] && store.disk == map[OwnFile(index.session) := Index(index)]
    requires newer.session == index.session && newer != index && !IsEmpty(index) && !IsEmpty(newer)
    modifies store
    ensures !first && second && store.saved == map[index.session := index]
    ensures Look(store.disk, OwnFile(index.session)) == Some(Index(newer))
  {
    var x := index.session;
    CollectedOne(newer);
    CollectedOne(index);
    assert Attempted(store.disk, store.saved, Collected([newer]), x);
    first := store.Sync([newer], map[x := FailsAfter]);
    assert Look(store.disk, OwnFile(x)) == Some(Index(newer));
    second := store.Sync([index], map[]);
  }

  lemma CollectedOne(index: ConversationIndex)
    ensures Collected([index]) == map[index.session := index]
  {
    assert [index][..0] == [];
  }

  /** A series of successful syncs, starting from an opened directory. */
  ghost predicate IsSyncRun(
    disks: seq<Disk>, saves: seq<map<S.SessionId, ConversationIndex>>, lists: seq<seq<ConversationIndex>>)
  {
    && |disks| == |saves| == |lists| + 1
    && (exists listing :: Lists(listing, disks[0]) && saves[0] == Opened(disks[0], listing))
    && forall i | 0 <= i < |lists| ::
         && Current(lists[i]) && saves[i + 1] == NonEmpty(Collected(lists[i]))
         && forall f :: Look(disks[i + 1], f) == FileAfter(disks[i], saves[i], Collected(lists[i]), f)
  }

  lemma {:induction false} SyncRunAgrees(
    disks: seq<Disk>, saves: seq<map<S.SessionId, ConversationIndex>>, lists: seq<seq<ConversationIndex>>, i: nat)
    requires IsSyncRun(disks, saves, lists) && WellNamed(disks[0]) && i < |disks|
    ensures Agree(saves[i], disks[i])
  {
    if i == 0 {
      var listing :| Lists(listing, disks[0]) && saves[0] == Opened(disks[0], listing);
      OpenAgrees(disks[0], listing);
    } else {
      SyncRunAgrees(disks, saves, lists, i - 1);
      SyncAgrees(disks[i - 1], saves[i - 1], lists[i - 1], disks[i]);
    }
  }

  /**
   Main result: after any number of successful syncs of a directory that was well named, reopening it,
   in whatever order it is listed, yields the non-empty indexes of the last list.
   */
  lemma ReopeningYieldsLastList(
    disks: seq<Disk>, saves: seq<map<S.SessionId, ConversationIndex>>, lists: seq<seq<ConversationIndex>>,
    listing: seq<FileName>)
    requires IsSyncRun(disks, saves, lists) && WellNamed(disks[0]) && |lists| > 0
    requires Lists(listing, disks[|lists|])
    ensures Opened(disks[|lists|], listing) == saves[|lists|] == NonEmpty(Collected(lists[|lists| - 1]))
  {
    SyncRunAgrees(disks, saves, lists, |lists|);
    OpenAgrees(disks[|lists|], listing);
    AgreeDetermines(Opened(disks[|lists|], listing), saves[|lists|], disks[|lists|]);
    assert saves[|lists| - 1 + 1] == NonEmpty(Collected(lists[|lists| - 1]));
  }

  lemma {:induction false} OpenedEmpty(disk: Disk, listing: seq<FileName>)
    requires forall f | f in listing :: f in disk
    ensures Opened(disk, listing) == map[] <==> forall f | f in listing :: !IsIndex(disk[f])
  {
    if |listing| > 0 {
      var front, last := listing[..|listing| - 1], listing[|listing| - 1];
      OpenedEmpty(disk, front);
      assert listing == front + [last];
      assert forall f :: f in listing <==> f in front || f == last;
      if IsIndex(disk[last]) {
        assert disk[last].index.session in Opened(disk, listing);
      }
    }
  }

  /**
   A readable index in a file of another name is beyond the store's reach: after a successful sync of an
   empty list, reopening finds nothing exactly if every readable index was in the file of some session
   that the store had read an index of.
   */
  lemma ForgettingAllExactly(
    disk: Disk, saved: map<S.SessionId, ConversationIndex>, disk': Disk, listing: seq<FileName>)
    requires forall f :: Look(disk', f) == FileAfter(disk, saved, map[], f)
    requires Lists(listing, disk')
    ensures Opened(disk', listing) == map[] <==>
            forall f | f in disk && IsIndex(disk[f]) :: f.OwnFile? && f.session in saved
  {
    OpenedEmpty(disk', listing);
    if forall f | f in disk && IsIndex(disk[f]) :: f.OwnFile? && f.session in saved {
      forall f | f in listing
        ensures !IsIndex(disk'[f])
      {
        assert Look(disk', f) == FileAfter(disk, saved, map[], f);
      }
    } else {
      var f :| f in disk && IsIndex(disk[f]) && !(f.OwnFile? && f.session in saved);
      assert Look(disk', f) == FileAfter(disk, saved, map[], f) == Some(disk[f]);
      assert f in listing;
    }
  }

  // ---------------------------------------------------------------------------------------------
  // Restarting the server
  // ---------------------------------------------------------------------------------------------

  function ActiveOf(r: RuntimeState, order: seq<AgentId>): seq<ActiveConversation> {
    if |order| == 0 then []
    else
      var rest := ActiveOf(r, order[1..]);
      if order[0] !in r.previous then rest
      else
        var seen := r.previous[order[0]];
        var title := if TitleOf(r.drafts, order[0]).Some? then TitleOf(r.drafts, order[0]) else seen.title;
        if seen.conversation.None? && title.None? then rest
        else [ActiveConversation(seen.conversation, title, seen.kind, seen.launch)] + rest
  }

  function IndexOf(r: RuntimeState): ConversationIndex {
    ConversationIndex(INDEX_VERSION, r.state.id, ActiveOf(r, r.agents.order), r.archived)
  }

  /** An agent's conversation that is complete now: it has an identifier, and a name typed or observed. */
  ghost predicate CompleteNow(r: RuntimeState, id: AgentId, c: ConversationId) {
    && id in r.previous && r.previous[id].conversation == Some(c)
    && (TitleOf(r.drafts, id).Some? || r.previous[id].title.Some?)
  }

  lemma {:induction false} CompleteActive(r: RuntimeState, order: seq<AgentId>, c: ConversationId)
    ensures K.IsArchived(Complete(ActiveOf(r, order)), c) <==> exists id | id in order :: CompleteNow(r, id, c)
  {
    if |order| > 0 {
      CompleteActive(r, order[1..], c);
      assert order == [order[0]] + order[1..];
      assert forall id :: id in order <==> id == order[0] || id in order[1..];
      CompleteFirst(r, order);
      ArchivedConcat(CompleteHead(r, order[0]), Complete(ActiveOf(r, order[1..])), c);
      CompleteHeadNames(r, order[0], c);
    }
  }

  lemma CompleteHeadNames(r: RuntimeState, id: AgentId, c: ConversationId)
    ensures K.IsArchived(CompleteHead(r, id), c) <==> CompleteNow(r, id, c)
  {
    if CompleteHead(r, id) != [] {
      ArchivedSingle(CompleteHead(r, id)[0], c);
      assert CompleteHead(r, id) == [CompleteHead(r, id)[0]];
    }
  }

  function CompleteHead(r: RuntimeState, id: AgentId): seq<ArchivedConversation> {
    if id !in r.previous || r.previous[id].conversation.None? then []
    else
      var seen := r.previous[id];
      var title := if TitleOf(r.drafts, id).Some? then TitleOf(r.drafts, id) else seen.title;
      if title.None? then [] else [ArchivedConversation(seen.conversation.value, title.value, seen.kind, seen.launch)]
  }

  lemma CompleteFirst(r: RuntimeState, order: seq<AgentId>)
    requires |order| > 0
    ensures Complete(ActiveOf(r, order)) == CompleteHead(r, order[0]) + Complete(ActiveOf(r, order[1..]))
  {
    var rest := ActiveOf(r, order[1..]);
    if |ActiveOf(r, order)| > |rest| {
      assert ActiveOf(r, order)[1..] == rest;
    }
  }

  /**
   Main result: the index written for a session restores exactly its archived conversations and those of
   agents that have an identifier and a name, each once; in particular every known one. What is still on
   disk when the next server opens it is told in `Persistence`.
   */
  lemma RestartKeepsExactly(r: RuntimeState, c: ConversationId)
    requires K.Inv(r)
    ensures K.DistinctIds(Restored(IndexOf(r)))
    ensures K.IsArchived(Restored(IndexOf(r)), c) <==>
            K.IsArchived(r.archived, c) || exists id | id in r.previous :: CompleteNow(r, id, c)
    ensures K.Known(r, c) ==> K.IsArchived(Restored(IndexOf(r)), c)
  {
    var active := Complete(ActiveOf(r, r.agents.order));
    RestoredHas(active, r.archived, c);
    CompleteActive(r, r.agents.order, c);
    SameAgents(r, c);
    if K.ActiveBut(r.previous, None, c) {
      var id :| id in r.previous && K.Names(r.previous[id], c);
      assert CompleteNow(r, id, c);
    }
  }

  lemma SameAgents(r: RuntimeState, c: ConversationId)
    requires K.KeysAgree(r)
    ensures (exists id | id in r.agents.order :: CompleteNow(r, id, c)) <==>
            exists id | id in r.previous :: CompleteNow(r, id, c)
  {
    assert forall id :: id in r.agents.order <==> id in r.previous;
  }

  lemma RestoredHas(active: seq<ArchivedConversation>, archived: seq<ArchivedConversation>, c: ConversationId)
    ensures K.DistinctIds(Unseen(active + archived, {}))
    ensures K.IsArchived(Unseen(active + archived, {}), c) <==> K.IsArchived(active, c) || K.IsArchived(archived, c)
  {
    UnseenDistinct(active + archived, {});
    UnseenHas(active + archived, {}, c);
    ArchivedConcat(active, archived, c);
  }
}
