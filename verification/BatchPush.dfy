/**
 * The batch push route (handlers/batch.rs): create every entry whose external
 * id is not already live, under one hold of the store's lock, and ask for a
 * repair sweep if any entry is left without a vector.
 */
module BatchPush {
  import opened Wrappers
  import opened NoteStore

  /** An entry past validation: `id` is the restored or freshly minted one, `vector` the pushed or computed one. */
  datatype Entry = Entry(externalId: string, id: string, title: string, body: string, createdAt: int,
                         vector: Option<Vector>)

  datatype Item = Item(created: bool, externalId: string, id: string, embedded: bool)

  /** What is stored, what is reported, and the error that cut the batch short. */
  datatype Outcome = Outcome(db: Db, items: seq<Item>, error: Option<StoreError>)

  predicate IsLive(db: Db, project: int, externalId: string, r: int) {
    && r in db.notes && db.notes[r].project == project && db.notes[r].active
    && db.notes[r].remoteId == Some(externalId) && db.notes[r].syncId.Some?
  }

  ghost function LiveRow(db: Db, project: int, externalId: string): (o: Option<int>)
    ensures o.Some? ==> IsLive(db, project, externalId, o.value)
    ensures o.None? ==> forall r :: !IsLive(db, project, externalId, r)
  {
    if r :| IsLive(db, project, externalId, r) then Some(r) else None
  }

  lemma LiveRowIs(db: Db, project: int, externalId: string, r: int)
    requires Consistent(db) && IsLive(db, project, externalId, r)
    ensures LiveRow(db, project, externalId) == Some(r)
  {
    var o := LiveRow(db, project, externalId);
    assert o.Some?;
    assert o.value == r || !SamePush(db.notes[o.value], db.notes[r]);
  }

  function NewNote(project: int, e: Entry): Note {
    Note(project, e.title, e.body, e.createdAt, true, Some(e.id), Some(e.externalId), None)
  }

  ghost function Push(db: Db, project: int, entries: seq<Entry>): Outcome
    decreases |entries|
  {
    if entries == [] then Outcome(db, [], None)
    else
      var e := entries[0];
      match LiveRow(db, project, e.externalId)
      case Some(r) =>
        var rest := Push(db, project, entries[1..]);
        rest.(items := [Item(false, e.externalId, db.notes[r].syncId.value, r in db.embeddings)] + rest.items)
      case None =>
        match Added(db, NewNote(project, e), e.vector)
        case Failure(error) => Outcome(db, [], Some(error))
        case Success(db') =>
          var rest := Push(db', project, entries[1..]);
          rest.(items := [Item(true, e.externalId, e.id, e.vector.Some?)] + rest.items)
  }

  /** `after` has every row and vector of `before`, and only newer rows besides. */
  ghost predicate Grows(before: Db, after: Db) {
    && before.nextId <= after.nextId
    && (forall r :: r in before.notes ==> r in after.notes && after.notes[r] == before.notes[r])
    && (forall r :: r in after.notes && r < before.nextId ==> r in before.notes)
    && (forall r :: r in before.notes ==> (r in after.embeddings <==> r in before.embeddings))
    && (forall r :: r in before.embeddings && r in after.embeddings ==> after.embeddings[r] == before.embeddings[r])
  }

  lemma AddedGrows(db: Db, note: Note, embedding: Option<Vector>)
    requires Consistent(db) && note.supersededBy == None && !Clashes(db, note)
    ensures Consistent(Added(db, note, embedding).value) && Grows(db, Added(db, note, embedding).value)
  {
  }

  /** A push only ever adds rows, even one cut short. */
  lemma {:induction false} PushGrows(db: Db, project: int, entries: seq<Entry>)
    requires Consistent(db)
    ensures Consistent(Push(db, project, entries).db) && Grows(db, Push(db, project, entries).db)
    decreases |entries|
  {
    if entries != [] {
      var e := entries[0];
      if LiveRow(db, project, e.externalId).Some? {
        PushGrows(db, project, entries[1..]);
      } else if !Clashes(db, NewNote(project, e)) {
        var db' := Added(db, NewNote(project, e), e.vector).value;
        AddedGrows(db, NewNote(project, e), e.vector);
        PushGrows(db', project, entries[1..]);
      }
    }
  }

  // ------------------------------------------------------- what a push stores

  /** Row `r` is entry `e` as it was sent, with the vector it was sent with or none. */
  predicate IsStoredAs(db: Db, project: int, r: int, e: Entry) {
    && r in db.notes
    && db.notes[r] == Note(project, e.title, e.body, e.createdAt, true, Some(e.id), Some(e.externalId), None)
    && (if e.vector.Some? then r in db.embeddings && db.embeddings[r] == e.vector.value else r !in db.embeddings)
  }

  /** The external id of entry `k` was live before the push or sent earlier in it. */
  ghost predicate IsRepeat(live: set<string>, entries: seq<Entry>, k: nat)
    requires k < |entries|
  {
    entries[k].externalId in live || exists j :: 0 <= j < k && entries[j].externalId == entries[k].externalId
  }

  /** What is reported of entry `k`: created and stored as sent, exactly when it is no repeat. */
  ghost predicate IsReported(before: Db, project: int, entries: seq<Entry>, after: Db, k: nat, item: Item)
    requires k < |entries|
  {
    && item.externalId == entries[k].externalId
    && (item.created <==> !IsRepeat(LiveIds(before, project), entries, k))
    && (item.created ==> item.id == entries[k].id && item.embedded == entries[k].vector.Some? &&
                         exists r :: before.nextId <= r && IsStoredAs(after, project, r, entries[k]))
  }

  /** Entries up to where the push ended are reported, and nothing is stored but what was created. */
  ghost predicate StoresAndReports(before: Db, project: int, entries: seq<Entry>, out: Outcome) {
    && |out.items| <= |entries| && (out.error.None? ==> |out.items| == |entries|)
    && (forall k :: 0 <= k < |out.items| ==> IsReported(before, project, entries, out.db, k, out.items[k]))
    && (forall r :: r in out.db.notes && r !in before.notes ==> IsFromEntry(before, project, entries, out, r))
  }

  ghost predicate IsFromEntry(before: Db, project: int, entries: seq<Entry>, out: Outcome, r: int)
    requires |out.items| <= |entries|
  {
    exists k :: 0 <= k < |out.items| && out.items[k].created && IsStoredAs(out.db, project, r, entries[k])
  }

  lemma StoredStays(mid: Db, after: Db, project: int, r: int, e: Entry)
    requires Grows(mid, after) && IsStoredAs(mid, project, r, e)
    ensures IsStoredAs(after, project, r, e)
  {
  }

  lemma RepeatFirst(live: set<string>, live': set<string>, entries: seq<Entry>, k: nat)
    requires 0 < k < |entries| && live' == live + {entries[0].externalId}
    ensures IsRepeat(live, entries, k) <==> IsRepeat(live', entries[1..], k - 1)
  {
    var rest := entries[1..];
    forall j | 0 < j < |entries| ensures entries[j] == rest[j - 1] {
    }
    if j :| 0 <= j < k && entries[j].externalId == entries[k].externalId {
      if j > 0 { assert rest[j - 1].externalId == rest[k - 1].externalId; }
    }
    if j :| 0 <= j < k - 1 && rest[j].externalId == rest[k - 1].externalId {
      assert entries[j + 1].externalId == entries[k].externalId;
    }
  }

  lemma ReportedLater(before: Db, mid: Db, project: int, entries: seq<Entry>, after: Db, k: nat, item: Item)
    requires 0 < k < |entries| && before.nextId <= mid.nextId
    requires LiveIds(mid, project) == LiveIds(before, project) + {entries[0].externalId}
    requires IsReported(mid, project, entries[1..], after, k - 1, item)
    ensures IsReported(before, project, entries, after, k, item)
  {
    RepeatFirst(LiveIds(before, project), LiveIds(mid, project), entries, k);
    assert entries[1..][k - 1] == entries[k];
  }

  lemma FromLater(before: Db, mid: Db, project: int, entries: seq<Entry>, rest: Outcome, out: Outcome, first: Item,
                  r: int)
    requires entries != [] && out == rest.(items := [first] + rest.items)
    requires |rest.items| <= |entries| - 1 && IsFromEntry(mid, project, entries[1..], rest, r)
    ensures IsFromEntry(before, project, entries, out, r)
  {
    var k :| 0 <= k < |rest.items| && rest.items[k].created && IsStoredAs(rest.db, project, r, entries[1..][k]);
    assert out.items[k + 1].created && IsStoredAs(out.db, project, r, entries[k + 1]);
  }

  /** One entry's report in front of the others'. */
  lemma ReportsJoin(before: Db, mid: Db, project: int, entries: seq<Entry>, rest: Outcome, first: Item)
    requires entries != [] && Grows(before, mid) && StoresAndReports(mid, project, entries[1..], rest)
    requires LiveIds(mid, project) == LiveIds(before, project) + {entries[0].externalId}
    requires IsReported(before, project, entries, rest.db, 0, first)
    requires forall r :: r in mid.notes && r !in before.notes ==>
                           first.created && IsStoredAs(rest.db, project, r, entries[0])
    ensures StoresAndReports(before, project, entries, rest.(items := [first] + rest.items))
  {
    var out := rest.(items := [first] + rest.items);
    forall k | 0 <= k < |out.items| ensures IsReported(before, project, entries, out.db, k, out.items[k]) {
      if k > 0 { ReportedLater(before, mid, project, entries, rest.db, k, rest.items[k - 1]); }
    }
    forall r | r in out.db.notes && r !in before.notes ensures IsFromEntry(before, project, entries, out, r) {
      if r in mid.notes {
        assert out.items[0].created && IsStoredAs(out.db, project, r, entries[0]);
      } else {
        FromLater(before, mid, project, entries, rest, out, first, r);
      }
    }
  }

  /** Every entry that is no repeat is stored as it was sent, every other one reported as there already, and no more. */
  lemma {:induction false} PushStores(db: Db, project: int, entries: seq<Entry>)
    requires Consistent(db)
    ensures StoresAndReports(db, project, entries, Push(db, project, entries))
    decreases |entries|
  {
    if entries != [] {
      var e := entries[0];
      LiveIdHasRow(db, project, e.externalId);
      if LiveRow(db, project, e.externalId).Some? {
        var r := LiveRow(db, project, e.externalId).value;
        PushStores(db, project, entries[1..]);
        assert LiveIds(db, project) == LiveIds(db, project) + {e.externalId};
        ReportsJoin(db, db, project, entries, Push(db, project, entries[1..]),
                    Item(false, e.externalId, db.notes[r].syncId.value, r in db.embeddings));
      } else if !Clashes(db, NewNote(project, e)) {
        var mid := Added(db, NewNote(project, e), e.vector).value;
        AddedGrows(db, NewNote(project, e), e.vector);
        AddedIds(db, project, e);
        PushStores(mid, project, entries[1..]);
        PushGrows(mid, project, entries[1..]);
        StoredStays(mid, Push(mid, project, entries[1..]).db, project, db.nextId, e);
        ReportsJoin(db, mid, project, entries, Push(mid, project, entries[1..]),
                    Item(true, e.externalId, e.id, e.vector.Some?));
      }
    }
  }

  // --------------------------------------------------------- pushing it again

  /** Every entry is live in `db` just as `items` reported it. */
  ghost predicate Settled(db: Db, project: int, items: seq<Item>) {
    forall k :: 0 <= k < |items| ==> IsSettled(db, project, items[k])
  }

  ghost predicate IsSettled(db: Db, project: int, item: Item) {
    exists r :: IsLive(db, project, item.externalId, r) && db.notes[r].syncId == Some(item.id) &&
                (r in db.embeddings <==> item.embedded)
  }

  predicate Answers(entries: seq<Entry>, items: seq<Item>) {
    |items| == |entries| && forall k :: 0 <= k < |entries| ==> items[k].externalId == entries[k].externalId
  }

  /** A push that goes through leaves every entry live under the id it reported. */
  lemma {:induction false} PushSettles(db: Db, project: int, entries: seq<Entry>)
    requires Consistent(db) && Push(db, project, entries).error.None?
    ensures var out := Push(db, project, entries); Answers(entries, out.items) && Settled(out.db, project, out.items)
    decreases |entries|
  {
    if entries != [] {
      var e, out := entries[0], Push(db, project, entries);
      var first, mid := out.items[0], db;
      if LiveRow(db, project, e.externalId).None? {
        AddedGrows(db, NewNote(project, e), e.vector);
        mid := Added(db, NewNote(project, e), e.vector).value;
        assert IsLive(mid, project, e.externalId, db.nextId);
      }
      assert IsSettled(mid, project, first);
      PushSettles(mid, project, entries[1..]);
      PushGrows(mid, project, entries[1..]);
      assert out.items == [first] + Push(mid, project, entries[1..]).items;
    }
  }

  /** The report for entries that are all live already. */
  function Skipped(items: seq<Item>): (skipped: seq<Item>)
    ensures |skipped| == |items|
  {
    if items == [] then [] else [items[0].(created := false)] + Skipped(items[1..])
  }

  lemma {:induction false} SettledIsSkipped(db: Db, project: int, entries: seq<Entry>, items: seq<Item>)
    requires Consistent(db) && Answers(entries, items) && Settled(db, project, items)
    ensures Push(db, project, entries) == Outcome(db, Skipped(items), None)
    decreases |entries|
  {
    if entries != [] {
      assert IsSettled(db, project, items[0]);
      var r :| IsLive(db, project, items[0].externalId, r) && db.notes[r].syncId == Some(items[0].id)
               && (r in db.embeddings <==> items[0].embedded);
      LiveRowIs(db, project, entries[0].externalId, r);
      SettledIsSkipped(db, project, entries[1..], items[1..]);
    }
  }

  /** Pushing a batch again stores nothing and reports the same ids, each entry skipped. */
  lemma PushIsIdempotent(db: Db, project: int, entries: seq<Entry>)
    requires Consistent(db) && Push(db, project, entries).error.None?
    ensures var out := Push(db, project, entries);
            Push(out.db, project, entries) == Outcome(out.db, Skipped(out.items), None)
  {
    var out := Push(db, project, entries);
    PushGrows(db, project, entries);
    PushSettles(db, project, entries);
    SettledIsSkipped(out.db, project, entries, out.items);
  }

  // --------------------------------------------------------- when a push fails

  /** The external ids live in the project. */
  ghost function LiveIds(db: Db, project: int): set<string> {
    set r | r in db.notes && IsKnown(db, project, r) && db.notes[r].active && db.notes[r].syncId.Some?
          :: db.notes[r].remoteId.value
  }

  predicate IsKnown(db: Db, project: int, r: int) {
    r in db.notes && db.notes[r].project == project && db.notes[r].remoteId.Some?
  }

  ghost function KnownIds(db: Db, project: int): set<string> {
    set r | r in db.notes && IsKnown(db, project, r) :: db.notes[r].remoteId.value
  }

  ghost function TakenIds(db: Db): set<string> {
    set r | r in db.notes && db.notes[r].syncId.Some? :: db.notes[r].syncId.value
  }

  /**
   * Some entry is neither live nor a repeat of an earlier one, and its external
   * id belongs to a row that is not live, or its id is already in use.
   */
  ghost predicate WillFail(live: set<string>, known: set<string>, taken: set<string>, entries: seq<Entry>)
    decreases |entries|
  {
    if entries == [] then false
    else
      var e := entries[0];
      if e.externalId in live then WillFail(live, known, taken, entries[1..])
      else if e.externalId in known || e.id in taken then true
      else WillFail(live + {e.externalId}, known + {e.externalId}, taken + {e.id}, entries[1..])
  }

  lemma LiveIdHasRow(db: Db, project: int, externalId: string)
    ensures externalId in LiveIds(db, project) <==> LiveRow(db, project, externalId).Some?
  {
    forall r
      ensures IsLive(db, project, externalId, r) <==>
              IsKnown(db, project, r) && db.notes[r].active && db.notes[r].syncId.Some? &&
              db.notes[r].remoteId.value == externalId
    {
    }
  }

  lemma AddedIds(db: Db, project: int, e: Entry)
    requires Consistent(db) && !Clashes(db, NewNote(project, e))
    ensures var after := Added(db, NewNote(project, e), e.vector).value;
            && LiveIds(after, project) == LiveIds(db, project) + {e.externalId}
            && KnownIds(after, project) == KnownIds(db, project) + {e.externalId}
            && TakenIds(after) == TakenIds(db) + {e.id}
  {
    var after := Added(db, NewNote(project, e), e.vector).value;
    assert IsKnown(after, project, db.nextId);
    assert forall r :: r in db.notes ==> r in after.notes && after.notes[r] == db.notes[r];
    assert forall r :: IsKnown(after, project, r) && r != db.nextId ==> IsKnown(db, project, r);
    assert forall r :: IsKnown(db, project, r) ==> IsKnown(after, project, r);
  }

  /** Exactly when a push is cut short, told from the ids in the store and in the batch. */
  lemma {:induction false} PushFailsIff(db: Db, project: int, entries: seq<Entry>)
    requires Consistent(db)
    ensures Push(db, project, entries).error.Some?
       <==> WillFail(LiveIds(db, project), KnownIds(db, project), TakenIds(db), entries)
    decreases |entries|
  {
    if entries != [] {
      var e := entries[0];
      LiveIdHasRow(db, project, e.externalId);
      if e.externalId in LiveIds(db, project) {
        PushFailsIff(db, project, entries[1..]);
      } else {
        assert Clashes(db, NewNote(project, e)) <==> e.externalId in KnownIds(db, project) || e.id in TakenIds(db);
        if !Clashes(db, NewNote(project, e)) {
          AddedIds(db, project, e);
          PushFailsIff(Added(db, NewNote(project, e), e.vector).value, project, entries[1..]);
        }
      }
    }
  }

  /** An entry pushed, then archived, can never be pushed again: the unique index still holds its external id. */
  lemma RepushAfterArchiveFails(db: Db, project: int, first: Entry, again: Entry)
    requires Consistent(db) && Push(db, project, [first]).error.None? && again.externalId == first.externalId
    ensures var out := Push(db, project, [first]);
            Push(Archived(out.db, project, out.items[0].id), project, [again]).error == Some(UniqueViolation)
  {
    var out := Push(db, project, [first]);
    PushGrows(db, project, [first]);
    PushSettles(db, project, [first]);
    assert IsSettled(out.db, project, out.items[0]);
    var r :| IsLive(out.db, project, first.externalId, r) && out.db.notes[r].syncId == Some(out.items[0].id);
    var db' := Archived(out.db, project, out.items[0].id);
    assert r in db'.notes && !db'.notes[r].active && IsPushed(db', project, Some(again.externalId));
    AppliedConsistent(out.db, Archive(project, out.items[0].id));
    forall s ensures !IsLive(db', project, again.externalId, s) {
      assert s in db'.notes && s != r ==> !SamePush(db'.notes[s], db'.notes[r]);
    }
  }

  // ------------------------------------------------- rows left without vectors

  /** An entry was created without a vector. */
  predicate LeftBare(items: seq<Item>) { exists k :: 0 <= k < |items| && items[k].created && !items[k].embedded }

  /** Rows that are waiting for a vector now and were not before. */
  ghost function NewlyMissing(before: Db, after: Db): set<int> { Missing(after) - Missing(before) }

  /** A push adds to the backlog exactly when it creates an entry without a vector, cut short or not. */
  lemma {:induction false} PushBacklog(db: Db, project: int, entries: seq<Entry>)
    requires Consistent(db)
    ensures LeftBare(Push(db, project, entries).items) <==> NewlyMissing(db, Push(db, project, entries).db) != {}
    decreases |entries|
  {
    if entries != [] {
      var e, out := entries[0], Push(db, project, entries);
      if LiveRow(db, project, e.externalId).Some? {
        var rest := Push(db, project, entries[1..]);
        PushBacklog(db, project, entries[1..]);
        assert out.items[1..] == rest.items && !out.items[0].created;
        assert LeftBare(out.items) <==> LeftBare(rest.items);
      } else if !Clashes(db, NewNote(project, e)) {
        var mid := Added(db, NewNote(project, e), e.vector).value;
        AddedGrows(db, NewNote(project, e), e.vector);
        PushBacklog(mid, project, entries[1..]);
        PushGrows(mid, project, entries[1..]);
        var rest := Push(mid, project, entries[1..]);
        BacklogJoins(db, mid, rest.db, e.vector.None?);
        assert out.items[1..] == rest.items && out.items[0].embedded == e.vector.Some?;
        assert LeftBare(out.items) <==> e.vector.None? || LeftBare(rest.items);
      }
    }
  }

  lemma BacklogJoins(db: Db, mid: Db, after: Db, bare: bool)
    requires Consistent(db) && Consistent(mid) && Consistent(after) && Grows(db, mid) && Grows(mid, after)
    requires mid.nextId == db.nextId + 1 && (IsMissing(mid, db.nextId) <==> bare)
    ensures NewlyMissing(db, after) != {} <==> bare || NewlyMissing(mid, after) != {}
  {
    if bare {
      assert db.nextId in NewlyMissing(db, after);
    }
    forall r | r in NewlyMissing(mid, after) ensures r in NewlyMissing(db, after) {
    }
    forall r | r in NewlyMissing(db, after) && !bare ensures r in NewlyMissing(mid, after) {
    }
    if !bare { assert NewlyMissing(db, after) == NewlyMissing(mid, after); }
  }

  /**
   * Told from the ids in the store and the batch alone: some entry that is
   * neither live nor a repeat goes in without a vector, and a later one fails.
   */
  ghost predicate WillStrand(live: set<string>, known: set<string>, taken: set<string>, entries: seq<Entry>)
    decreases |entries|
  {
    if entries == [] then false
    else
      var e, rest := entries[0], entries[1..];
      var live', known', taken' := live + {e.externalId}, known + {e.externalId}, taken + {e.id};
      if e.externalId in live then WillStrand(live, known, taken, rest)
      else if e.externalId in known || e.id in taken then false
      else (e.vector.None? && WillFail(live', known', taken', rest)) || WillStrand(live', known', taken', rest)
  }

  lemma BareFirst(item: Item, rest: seq<Item>)
    ensures LeftBare([item] + rest) <==> (item.created && !item.embedded) || LeftBare(rest)
  {
    var items := [item] + rest;
    assert items[0] == item;
    assert forall k :: 0 <= k < |rest| ==> items[k + 1] == rest[k];
  }

  /** Exactly when a push fails after it created an entry without a vector. */
  lemma {:induction false} PushStrandsIff(db: Db, project: int, entries: seq<Entry>)
    requires Consistent(db)
    ensures var out := Push(db, project, entries);
            out.error.Some? && LeftBare(out.items) <==>
            WillStrand(LiveIds(db, project), KnownIds(db, project), TakenIds(db), entries)
    decreases |entries|
  {
    if entries != [] {
      var e, rest := entries[0], entries[1..];
      LiveIdHasRow(db, project, e.externalId);
      if e.externalId in LiveIds(db, project) {
        PushStrandsIff(db, project, rest);
        BareFirst(Push(db, project, entries).items[0], Push(db, project, rest).items);
      } else {
        assert Clashes(db, NewNote(project, e)) <==> e.externalId in KnownIds(db, project) || e.id in TakenIds(db);
        if !Clashes(db, NewNote(project, e)) {
          var mid := Added(db, NewNote(project, e), e.vector).value;
          AddedIds(db, project, e);
          PushStrandsIff(mid, project, rest);
          PushFailsIff(mid, project, rest);
          BareFirst(Item(true, e.externalId, e.id, e.vector.Some?), Push(mid, project, rest).items);
        }
      }
    }
  }

  // ------------------------------------------------------------- the route

  datatype Existing = Existing(id: string, embedded: bool)

  /** The route's map knows exactly the live rows among `ids`. */
  ghost predicate InSync(db: Db, project: int, ids: set<string>, existing: map<string, Existing>) {
    forall x :: x in ids ==> IsInSync(db, project, x, existing)
  }

  ghost predicate IsInSync(db: Db, project: int, x: string, existing: map<string, Existing>) {
    match LiveRow(db, project, x)
    case None => x !in existing
    case Some(r) => x in existing && existing[x] == Existing(db.notes[r].syncId.value, r in db.embeddings)
  }

  /** `find_by_remote_ids`. */
  method FindByRemoteIds(store: ServerDb, project: int, ids: set<string>) returns (existing: map<string, Existing>)
    requires store.Valid()
    ensures InSync(store.State(), project, ids, existing)
  {
    ghost var db := store.State();
    assert forall r, r' :: r in db.notes && r' in db.notes && r != r' ==> !SamePush(db.notes[r], db.notes[r']);
    existing := map r | r in store.notes && Matches(store.notes[r], project, ids)
      :: store.notes[r].remoteId.value := Existing(store.notes[r].syncId.value, r in store.embeddings);
    assert forall r :: r in db.notes && Matches(db.notes[r], project, ids) ==>
                         IsLive(db, project, db.notes[r].remoteId.value, r);
    forall x | x in ids ensures IsInSync(db, project, x, existing) {
      var o := LiveRow(db, project, x);
      assert o.Some? ==> Matches(db.notes[o.value], project, ids);
    }
  }

  predicate Matches(n: Note, project: int, ids: set<string>) {
    n.project == project && n.active && n.remoteId.Some? && n.remoteId.value in ids && n.syncId.Some?
  }

  /** Creating one entry keeps the map right for every other one. */
  lemma SyncAfterCreate(db: Db, project: int, e: Entry, ids: set<string>, existing: map<string, Existing>)
    requires Consistent(db) && InSync(db, project, ids, existing) && !Clashes(db, NewNote(project, e))
    ensures var after := Added(db, NewNote(project, e), e.vector).value;
            InSync(after, project, ids, existing[e.externalId := Existing(e.id, e.vector.Some?)])
  {
    var after := Added(db, NewNote(project, e), e.vector).value;
    AddedGrows(db, NewNote(project, e), e.vector);
    forall x | x in ids ensures IsInSync(after, project, x, existing[e.externalId := Existing(e.id, e.vector.Some?)]) {
      if x == e.externalId {
        LiveRowIs(after, project, x, db.nextId);
      } else if LiveRow(db, project, x).Some? {
        LiveRowIs(after, project, x, LiveRow(db, project, x).value);
      } else {
        assert forall r :: IsLive(after, project, x, r) ==> IsLive(db, project, x, r);
      }
    }
  }

  predicate SomeBare(items: seq<Item>) { exists k :: 0 <= k < |items| && !items[k].embedded }

  lemma BareAppend(items: seq<Item>, item: Item)
    ensures SomeBare(items + [item]) == (SomeBare(items) || !item.embedded)
  {
    var more := items + [item];
    assert more[|items|] == item;
    if SomeBare(items) {
      var k :| 0 <= k < |items| && !items[k].embedded;
      assert !more[k].embedded;
    }
  }

  /** With `items` reported and `rest` to come, the push amounts to `whole`. */
  ghost predicate Continues(whole: Outcome, items: seq<Item>, rest: Outcome) {
    whole.db == rest.db && whole.error == rest.error && whole.items == items + rest.items
  }

  lemma ContinueSkip(whole: Outcome, items: seq<Item>, db: Db, project: int, entries: seq<Entry>, found: Existing)
    requires entries != [] && Continues(whole, items, Push(db, project, entries))
    requires LiveRow(db, project, entries[0].externalId).Some?
    requires var r := LiveRow(db, project, entries[0].externalId).value;
             found == Existing(db.notes[r].syncId.value, r in db.embeddings)
    ensures Continues(whole, items + [Item(false, entries[0].externalId, found.id, found.embedded)],
                      Push(db, project, entries[1..]))
  {
  }

  lemma ContinueCreate(whole: Outcome, items: seq<Item>, db: Db, project: int, entries: seq<Entry>)
    requires entries != [] && Continues(whole, items, Push(db, project, entries))
    requires LiveRow(db, project, entries[0].externalId).None?
    ensures var e := entries[0];
            var added := Added(db, NewNote(project, e), e.vector);
            if added.Failure? then whole == Outcome(db, items, Some(added.error))
            else Continues(whole, items + [Item(true, e.externalId, e.id, e.vector.Some?)],
                           Push(added.value, project, entries[1..]))
  {
  }

  /** `push_memory_batch` from the moment it holds the store: `raised` says it asked for a repair sweep. */
  method PushMemoryBatch(store: ServerDb, project: int, entries: seq<Entry>)
    returns (items: seq<Item>, error: Option<StoreError>, raised: bool)
    requires store.Valid()
    modifies store
    ensures store.Valid() && Outcome(store.State(), items, error) == Push(old(store.State()), project, entries)
    ensures StoresAndReports(old(store.State()), project, entries, Outcome(store.State(), items, error))
    ensures raised == (error.None? && exists k :: 0 <= k < |items| && !items[k].embedded)
  {
    PushStores(store.State(), project, entries);
    var ids := set e | e in entries :: e.externalId;
    var existing := FindByRemoteIds(store, project, ids);
    var left, needsRepair := entries, false;
    items, error := [], None;
    ghost var whole := Push(store.State(), project, entries);
    while left != []
      invariant store.Valid() && InSync(store.State(), project, ids, existing)
      invariant forall k :: 0 <= k < |left| ==> left[k].externalId in ids
      invariant Continues(whole, items, Push(store.State(), project, left))
      invariant needsRepair == SomeBare(items)
      decreases |left|
    {
      var e := left[0];
      ghost var db := store.State();
      assert IsInSync(db, project, e.externalId, existing);
      var item;
      if e.externalId in existing {
        var found := existing[e.externalId];
        ContinueSkip(whole, items, db, project, left, found);
        item := Item(false, e.externalId, found.id, found.embedded);
      } else {
        ContinueCreate(whole, items, db, project, left);
        var stored :=
          store.AddNoteWithSyncId(project, e.title, e.body, e.createdAt, e.vector, Some(e.externalId), e.id);
        if stored.Failure? { return items, Some(stored.error), false; }
        SyncAfterCreate(db, project, e, ids, existing);
        existing := existing[e.externalId := Existing(e.id, e.vector.Some?)];
        item := Item(true, e.externalId, e.id, e.vector.Some?);
      }
      BareAppend(items, item);
      items, left, needsRepair := items + [item], left[1..], needsRepair || !item.embedded;
    }
    raised := needsRepair;
  }
}
