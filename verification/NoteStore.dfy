/**
 * The server's note and embedding tables (db.rs). `Db` and the functions on it
 * say what each storage call does; `ServerDb` does it in place. Both tables
 * are keyed by row id, which is never reused.
 */
module NoteStore {
  import opened Wrappers
  import Lex
  import UuidV7
  import opened Pages

  type Vector = seq<real>

  datatype Note = Note(project: int, title: string, body: string, createdAt: int, active: bool,
                       syncId: Option<string>, remoteId: Option<string>, supersededBy: Option<int>)

  datatype Db = Db(notes: map<int, Note>, embeddings: map<int, Vector>, nextId: int)

  datatype StoreError = UniqueViolation | ForeignKeyViolation

  const EMPTY := Db(map[], map[], 1)

  // ------------------------------------------------------------ storage calls

  predicate Names(n: Note, project: int, id: string) { n.syncId == Some(id) && n.project == project }

  predicate IsTaken(db: Db, id: string) { exists r :: r in db.notes && db.notes[r].syncId == Some(id) }

  /** A row of the project, archived or not, was pushed under this external id. */
  predicate IsPushed(db: Db, project: int, remoteId: Option<string>) {
    remoteId.Some? && exists r :: r in db.notes && db.notes[r].project == project && db.notes[r].remoteId == remoteId
  }

  predicate Clashes(db: Db, note: Note) {
    (note.syncId.Some? && IsTaken(db, note.syncId.value)) || IsPushed(db, note.project, note.remoteId)
  }

  /** `add_note_with_sync_id`: both unique indexes can refuse the row. */
  function Added(db: Db, note: Note, embedding: Option<Vector>): Result<Db, StoreError> {
    if Clashes(db, note) then Failure(UniqueViolation)
    else Success(Db(db.notes[db.nextId := note],
                    if embedding.Some? then db.embeddings[db.nextId := embedding.value] else db.embeddings,
                    db.nextId + 1))
  }

  /** `archive_note`: the named row if it is active. */
  function Archived(db: Db, project: int, id: string): Db {
    db.(notes := map r | r in db.notes ::
          if Names(db.notes[r], project, id) && db.notes[r].active then db.notes[r].(active := false) else db.notes[r])
  }

  predicate HasActive(db: Db, project: int, id: string) {
    exists r :: r in db.notes && Names(db.notes[r], project, id) && db.notes[r].active
  }

  predicate IsRow(db: Db, project: int, id: string, r: int) { r in db.notes && Names(db.notes[r], project, id) }

  ghost function RowOf(db: Db, project: int, id: string): (o: Option<int>)
    ensures o.Some? ==> IsRow(db, project, id, o.value)
    ensures o.None? ==> forall r :: !IsRow(db, project, id, r)
  {
    if r :| IsRow(db, project, id, r) then Some(r) else None
  }

  /** `supersede_note`: nothing happens unless the successor resolves. */
  ghost function Superseded(db: Db, project: int, oldId: string, newId: string): Db {
    match RowOf(db, project, newId)
    case None => db
    case Some(successor) =>
      db.(notes := map r | r in db.notes ::
            if Names(db.notes[r], project, oldId) && db.notes[r].active
            then db.notes[r].(active := false, supersededBy := Some(successor)) else db.notes[r])
  }

  /** Another row's `superseded_by` holds on to `r`. */
  predicate IsReferenced(db: Db, r: int) {
    exists r' :: r' in db.notes && r' != r && db.notes[r'].supersededBy == Some(r)
  }

  /** `delete_note`: the vector goes first; the row then goes only if no foreign key holds it. */
  ghost function Deleted(db: Db, project: int, id: string): (Db, Result<bool, StoreError>) {
    match RowOf(db, project, id)
    case None => (db, Success(false))
    case Some(r) =>
      var stripped := db.(embeddings := db.embeddings - {r});
      if IsReferenced(db, r) then (stripped, Failure(ForeignKeyViolation))
      else (stripped.(notes := db.notes - {r}), Success(true))
  }

  /** An active row without a vector. */
  predicate IsMissing(db: Db, r: int) { r in db.notes && db.notes[r].active && r !in db.embeddings }

  /** `insert_embedding_if_missing`. */
  function Embedded(db: Db, r: int, v: Vector): Db {
    if IsMissing(db, r) then db.(embeddings := db.embeddings[r := v]) else db
  }

  // -------------------------------------------------------------- consistency

  ghost predicate SyncIdsUnique(notes: map<int, Note>) {
    forall r, r' :: r in notes && r' in notes && r != r' && notes[r].syncId.Some? ==>
                      notes[r].syncId != notes[r'].syncId
  }

  predicate SamePush(m: Note, n: Note) { m.project == n.project && m.remoteId.Some? && m.remoteId == n.remoteId }

  ghost predicate PushesUnique(notes: map<int, Note>) {
    forall r, r' :: r in notes && r' in notes && r != r' ==> !SamePush(notes[r], notes[r'])
  }

  ghost predicate SuccessorsExist(notes: map<int, Note>) {
    forall r :: r in notes && notes[r].supersededBy.Some? ==> notes[r].supersededBy.value in notes
  }

  ghost predicate Consistent(db: Db) {
    && db.nextId > 0
    && (forall r :: r in db.notes ==> 0 < r < db.nextId)
    && db.embeddings.Keys <= db.notes.Keys
    && SyncIdsUnique(db.notes)
    && PushesUnique(db.notes)
    && SuccessorsExist(db.notes)
  }

  /** One storage call by any request. */
  datatype Op =
    | Add(note: Note, embedding: Option<Vector>)
    | Archive(project: int, id: string)
    | Supersede(project: int, id: string, newId: string)
    | Delete(project: int, id: string)
    | Embed(row: int, vector: Vector)

  /** New rows start active, unsuperseded and with an id. */
  predicate IsAllowed(op: Op) {
    op.Add? ==> op.note.active && op.note.syncId.Some? && op.note.supersededBy == None
  }

  ghost function Applied(db: Db, op: Op): Db {
    match op
    case Add(note, embedding) => (match Added(db, note, embedding) case Success(db') => db' case Failure(_) => db)
    case Archive(project, id) => Archived(db, project, id)
    case Supersede(project, id, newId) => Superseded(db, project, id, newId)
    case Delete(project, id) => Deleted(db, project, id).0
    case Embed(row, vector) => Embedded(db, row, vector)
  }

  /** Vectors belong to notes, ids stay unique, references stay intact, whatever is called. */
  lemma AppliedConsistent(db: Db, op: Op)
    requires Consistent(db) && IsAllowed(op)
    ensures Consistent(Applied(db, op))
  {
  }

  /** A row's project, text and id never change, ids are not reused, and no vector is ever replaced. */
  ghost predicate Extends(db: Db, db': Db) {
    && db.nextId <= db'.nextId
    && (forall r :: r in db'.notes && r < db.nextId ==> r in db.notes && SameContent(db.notes[r], db'.notes[r]))
    && (forall r :: r in db'.embeddings && r in db.embeddings ==> db'.embeddings[r] == db.embeddings[r])
  }

  predicate SameContent(before: Note, after: Note) {
    && before.title == after.title && before.body == after.body && before.project == after.project
    && before.syncId == after.syncId && before.remoteId == after.remoteId && (after.active ==> before.active)
  }

  lemma AddedExtends(db: Db, note: Note, embedding: Option<Vector>)
    requires Consistent(db) && Added(db, note, embedding).Success?
    ensures Extends(db, Added(db, note, embedding).value)
  {
  }

  lemma SupersededExtends(db: Db, project: int, oldId: string, newId: string)
    requires Consistent(db)
    ensures Extends(db, Superseded(db, project, oldId, newId))
  {
  }

  lemma DeletedExtends(db: Db, project: int, id: string)
    requires Consistent(db)
    ensures Extends(db, Deleted(db, project, id).0)
  {
  }

  lemma AppliedExtends(db: Db, op: Op)
    requires Consistent(db)
    ensures Extends(db, Applied(db, op))
  {
    match op
    case Add(note, embedding) => if Added(db, note, embedding).Success? { AddedExtends(db, note, embedding); }
    case Archive(_, _) =>
    case Supersede(project, id, newId) => SupersededExtends(db, project, id, newId);
    case Delete(project, id) => DeletedExtends(db, project, id);
    case Embed(_, _) =>
  }

  /** The one call that leaves an active row without its vector: deleting a row another row was superseded by. */
  lemma WhoLosesVectors(db: Db, op: Op, r: int)
    requires Consistent(db) && IsAllowed(op)
    requires r < db.nextId
    ensures !IsMissing(db, r) && IsMissing(Applied(db, op), r)
       <==> op.Delete? && IsRow(db, op.project, op.id, r) && db.notes[r].active && r in db.embeddings &&
            IsReferenced(db, r)
  {
    if op.Delete? && RowOf(db, op.project, op.id).Some? {
      assert IsRow(db, op.project, op.id, RowOf(db, op.project, op.id).value);
    }
  }

  // -------------------------------------------------------------- query sets

  /** The rows `notes_missing_embeddings` pages through. */
  ghost function Missing(db: Db): set<int> { set r | r in db.notes && IsMissing(db, r) }

  predicate IsActiveIn(db: Db, project: int, r: int) {
    r in db.notes && db.notes[r].active && db.notes[r].project == project
  }

  function ActiveRows(db: Db, project: int): set<int> { set r | r in db.notes && IsActiveIn(db, project, r) }

  /** The ids `notes_since_id` pages through. */
  ghost function ActiveIds(db: Db, project: int): set<string> {
    set r | r in db.notes && IsActiveIn(db, project, r) && db.notes[r].syncId.Some? :: db.notes[r].syncId.value
  }

  /** `limit.clamp(1, 500)`. */
  function ClampLimit(limit: int): nat { if limit < 1 then 1 else if limit > 500 then 500 else limit }

  /** `backfill_missing_sync_ids`: an id from its own creation time for every row without one. */
  function Backfilled(db: Db, entropy: map<int, UuidV7.Bytes>): Db
    requires SuppliesEntropy(db, entropy)
  {
    db.(notes := map r | r in db.notes :: WithId(db.notes[r], if db.notes[r].syncId.None? then entropy[r] else []))
  }

  predicate SuppliesEntropy(db: Db, entropy: map<int, UuidV7.Bytes>) {
    forall r :: r in db.notes && db.notes[r].syncId.None? ==> r in entropy && |entropy[r]| == 16
  }

  function WithId(n: Note, entropy: UuidV7.Bytes): Note
    requires n.syncId.None? ==> |entropy| == 16
  {
    if n.syncId.None? then n.(syncId := Some(UuidV7.UuidV7At(n.createdAt, entropy))) else n
  }

  // ----------------------------------------------------------- the live store

  class ServerDb {
    var notes: map<int, Note>
    var embeddings: map<int, Vector>
    var nextId: int

    ghost function State(): Db
      reads this
    {
      Db(notes, embeddings, nextId)
    }

    ghost predicate Valid()
      reads this
    {
      Consistent(State())
    }

    constructor ()
      ensures Valid() && State() == EMPTY
    {
      notes, embeddings, nextId := map[], map[], 1;
    }

    method AddNoteWithSyncId(project: int, title: string, body: string, createdAt: int,
                             embedding: Option<Vector>, remoteId: Option<string>, syncId: string)
      returns (r: Result<int, StoreError>)
      requires Valid()
      modifies this
      ensures Valid()
      ensures var note := Note(project, title, body, createdAt, true, Some(syncId), remoteId, None);
              match Added(old(State()), note, embedding)
              case Success(db) => State() == db && r == Success(old(nextId))
              case Failure(e) => State() == old(State()) && r == Failure(e)
      ensures r.Failure? <==>
              || (exists x :: x in old(notes) && old(notes)[x].syncId == Some(syncId))
              || (remoteId.Some? && exists x :: x in old(notes) && old(notes)[x].project == project
                                                && old(notes)[x].remoteId == remoteId)
      ensures r.Success? ==>
              && notes == old(notes)[old(nextId) :=
                                       Note(project, title, body, createdAt, true, Some(syncId), remoteId, None)]
              && embeddings == (if embedding.Some? then old(embeddings)[old(nextId) := embedding.value]
                                else old(embeddings))
    {
      if exists x :: x in notes && notes[x].syncId == Some(syncId) { return Failure(UniqueViolation); }
      if remoteId.Some? && exists x :: x in notes && notes[x].project == project && notes[x].remoteId == remoteId {
        return Failure(UniqueViolation);
      }
      notes := notes[nextId := Note(project, title, body, createdAt, true, Some(syncId), remoteId, None)];
      if embedding.Some? { embeddings := embeddings[nextId := embedding.value]; }
      r := Success(nextId);
      nextId := nextId + 1;
    }

    method ArchiveNote(project: int, id: string) returns (changed: bool)
      requires Valid()
      modifies this`notes
      ensures Valid() && State() == Archived(old(State()), project, id)
      ensures changed == HasActive(old(State()), project, id)
      ensures notes.Keys == old(notes).Keys && embeddings == old(embeddings)
      ensures forall r :: r in notes ==>
                var n := old(notes)[r];
                notes[r] == if n.syncId == Some(id) && n.project == project && n.active then n.(active := false) else n
    {
      changed := exists r :: r in notes && Names(notes[r], project, id) && notes[r].active;
      AppliedConsistent(State(), Archive(project, id));
      notes := map r | r in notes ::
        if Names(notes[r], project, id) && notes[r].active then notes[r].(active := false) else notes[r];
    }

    method ResolveRowid(project: int, id: string) returns (o: Option<int>)
      requires Valid()
      ensures o == RowOf(State(), project, id)
    {
      if r :| r in notes && Names(notes[r], project, id) {
        assert IsRow(State(), project, id, r);
        return Some(r);
      }
      return None;
    }

    method SupersedeNote(project: int, oldId: string, newId: string) returns (changed: bool)
      requires Valid()
      modifies this`notes
      ensures Valid() && State() == Superseded(old(State()), project, oldId, newId)
      ensures changed == (RowOf(old(State()), project, newId).Some? && HasActive(old(State()), project, oldId))
      ensures (forall x :: x in old(notes) ==> old(notes)[x].syncId != Some(newId) || old(notes)[x].project != project)
              ==> notes == old(notes)
      ensures forall x :: x in old(notes) && old(notes)[x].syncId == Some(newId) && old(notes)[x].project == project ==>
                IsSuperseded(old(notes), project, oldId, x, notes)
    {
      SupersededMeans(State(), project, oldId, newId);
      var successor := ResolveRowid(project, newId);
      if successor.None? { return false; }
      changed := exists r :: r in notes && Names(notes[r], project, oldId) && notes[r].active;
      AppliedConsistent(State(), Supersede(project, oldId, newId));
      notes := map r | r in notes ::
        if Names(notes[r], project, oldId) && notes[r].active
        then notes[r].(active := false, supersededBy := successor) else notes[r];
    }

    method DeleteNote(project: int, id: string) returns (r: Result<bool, StoreError>)
      requires Valid()
      modifies this`notes, this`embeddings
      ensures Valid() && (State(), r) == Deleted(old(State()), project, id)
      ensures IsDeleted(old(State()), project, id, State(), r)
    {
      DeletedMeans(State(), project, id);
      var row := ResolveRowid(project, id);
      if row.None? { return Success(false); }
      embeddings := embeddings - {row.value};
      if r' :| r' in notes && r' != row.value && notes[r'].supersededBy == row {
        assert IsReferenced(old(State()), row.value);
        return Failure(ForeignKeyViolation);
      }
      notes := notes - {row.value};
      return Success(true);
    }

    /** One call by some other request, its answer dropped. */
    method Apply(op: Op)
      requires Valid() && IsAllowed(op)
      modifies this
      ensures Valid() && State() == Applied(old(State()), op)
    {
      match op
      case Add(n, embedding) =>
        var _ := AddNoteWithSyncId(n.project, n.title, n.body, n.createdAt, embedding, n.remoteId, n.syncId.value);
      case Archive(project, id) => var _ := ArchiveNote(project, id);
      case Supersede(project, id, newId) => var _ := SupersedeNote(project, id, newId);
      case Delete(project, id) => var _ := DeleteNote(project, id);
      case Embed(row, vector) => var _ := InsertEmbeddingIfMissing(row, vector);
    }

    method InsertEmbeddingIfMissing(rowid: int, vector: Vector) returns (written: bool)
      requires Valid()
      modifies this`embeddings
      ensures Valid() && State() == Embedded(old(State()), rowid, vector)
      ensures written == (rowid in notes && notes[rowid].active && rowid !in old(embeddings))
      ensures embeddings == if written then old(embeddings)[rowid := vector] else old(embeddings)
    {
      if rowid !in notes || !notes[rowid].active { return false; }
      if rowid in embeddings { return false; }
      embeddings := embeddings[rowid := vector];
      return true;
    }

    method NotesMissingEmbeddings(afterRowid: int, limit: nat) returns (page: seq<int>)
      ensures IsOrder(IntOrder()) && page == Page(IntOrder(), Missing(State()), afterRowid, limit)
      ensures IsPage(IntOrder(), (set r | r in notes && notes[r].active && r !in embeddings), afterRowid, limit, page)
    {
      var rows := set r | r in notes && notes[r].active && r !in embeddings;
      assert rows == Missing(State());
      page := SelectPage(IntOrder(), rows, afterRowid, limit);
      PageFacts(IntOrder(), rows, afterRowid, limit);
    }

    method NotesSinceId(project: int, cursor: string, limit: int) returns (page: seq<string>)
      ensures IsOrder(TextOrder()) && page == Page(TextOrder(), ActiveIds(State(), project), cursor, ClampLimit(limit))
      ensures IsPage(TextOrder(),
                     (set r | r in notes && notes[r].project == project && notes[r].active && notes[r].syncId.Some?
                            :: notes[r].syncId.value),
                     cursor, if limit < 1 then 1 else if limit > 500 then 500 else limit, page)
    {
      TextIsOrder();
      var ids := set r | r in notes && notes[r].project == project && notes[r].active && notes[r].syncId.Some?
                 :: notes[r].syncId.value;
      assert ids == ActiveIds(State(), project);
      page := SelectPage(TextOrder(), ids, cursor, ClampLimit(limit));
      PageFacts(TextOrder(), ids, cursor, ClampLimit(limit));
    }

    method ActiveNoteCount(project: int) returns (count: nat)
      ensures count == |ActiveRows(State(), project)|
      ensures count == |set r | r in notes && notes[r].project == project && notes[r].active|
    {
      count := |set r | r in notes && notes[r].project == project && notes[r].active|;
      assert (set r | r in notes && notes[r].project == project && notes[r].active) == ActiveRows(State(), project);
    }

    /** One row's `UPDATE notes SET sync_id`: refused if the id is taken. */
    method UpdateSyncId(rowid: int, id: string) returns (r: Result<(), StoreError>)
      requires Valid() && rowid in notes
      modifies this`notes
      ensures Valid()
      ensures r == if IsTaken(old(State()), id) && old(notes)[rowid].syncId != Some(id) then Failure(UniqueViolation)
                   else Success(())
      ensures State() == if r.Success? then Stamped(old(State()), rowid, id) else old(State())
    {
      if exists x :: x in notes && x != rowid && notes[x].syncId == Some(id) { return Failure(UniqueViolation); }
      notes := notes[rowid := notes[rowid].(syncId := Some(id))];
      return Success(());
    }

    method StaleRows() returns (stale: seq<int>)
      requires Valid()
      ensures forall k :: 0 <= k < |stale| ==>
                stale[k] in notes && notes[stale[k]].syncId.None? && stale[k] !in ToSet(stale[..k])
      ensures forall r :: r in notes && notes[r].syncId.None? ==> r in ToSet(stale)
      ensures Ascending(IntOrder(), stale)
    {
      var ids := set x | x in notes && notes[x].syncId.None?;
      stale := SelectPage(IntOrder(), ids, 0, |ids|);
      assert After(IntOrder(), ids, 0) == ids;
      WholePage(IntOrder(), ids, 0, |ids|);
      forall k | 0 <= k < |stale| ensures stale[k] in ids && stale[k] !in ToSet(stale[..k]) {
        assert stale[k] in ToSet(stale);
      }
    }

    method BackfillRow(id: int, entropy: map<int, UuidV7.Bytes>, ghost before: Db, ghost done: set<int>)
      returns (r: Result<(), StoreError>)
      requires Valid() && SuppliesEntropy(before, entropy) && State() == BackfilledOn(before, entropy, done)
      requires id in before.notes && before.notes[id].syncId.None? && id !in done
      modifies this`notes
      ensures Valid()
      ensures r.Success? ==> State() == BackfilledOn(before, entropy, done + {id})
      ensures r.Failure? ==> CollidesAt(State(), before.notes[id], entropy, id)
    {
      assert notes[id] == before.notes[id];
      r := UpdateSyncId(id, UuidV7.UuidV7At(notes[id].createdAt, entropy[id]));
    }

    /** Every row without an id gets one minted from its own creation time; a taken id ends the pass with an error. */
    method BackfillMissingSyncIds(entropy: map<int, UuidV7.Bytes>) returns (r: Result<(), StoreError>)
      requires Valid() && SuppliesEntropy(State(), entropy)
      modifies this`notes
      ensures Valid()
      ensures r.Success? ==> State() == Backfilled(old(State()), entropy)
      ensures r.Success? ==>
              && notes.Keys == old(notes).Keys
              && forall x :: x in notes ==>
                   var n := old(notes)[x];
                   notes[x] == if n.syncId.Some? then n
                               else n.(syncId := Some(UuidV7.UuidV7At(n.createdAt, entropy[x])))
      ensures r.Failure? ==> exists x :: x in old(notes) && CollidesAt(State(), old(notes)[x], entropy, x)
    {
      ghost var before := State();
      var stale := StaleRows();
      for k := 0 to |stale|
        invariant Valid() && State() == BackfilledOn(before, entropy, ToSet(stale[..k]))
      {
        var id := stale[k];
        r := BackfillRow(id, entropy, before, ToSet(stale[..k]));
        if r.Failure? { return; }
        ToSetExtends(stale, k);
      }
      assert ToSet(stale[..|stale|]) == ToSet(stale);
      BackfillEnd(before, entropy, ToSet(stale));
      return Success(());
    }
  }

  /** Nothing but the named active note changed: archived, with `successor` in its place. */
  ghost predicate IsSuperseded(before: map<int, Note>, project: int, oldId: string, successor: int,
                               after: map<int, Note>)
  {
    && after.Keys == before.Keys
    && forall r :: r in after ==>
         after[r] == if before[r].syncId == Some(oldId) && before[r].project == project && before[r].active
                     then before[r].(active := false, supersededBy := Some(successor)) else before[r]
  }

  lemma SupersededMeans(db: Db, project: int, oldId: string, newId: string)
    requires Consistent(db)
    ensures var after := Superseded(db, project, oldId, newId);
            && ((forall x :: x in db.notes ==> db.notes[x].syncId != Some(newId) || db.notes[x].project != project)
                ==> after == db)
            && (forall x :: x in db.notes && db.notes[x].syncId == Some(newId) && db.notes[x].project == project ==>
                  IsSuperseded(db.notes, project, oldId, x, after.notes))
  {
    forall x | x in db.notes && db.notes[x].syncId == Some(newId) && db.notes[x].project == project
      ensures RowOf(db, project, newId) == Some(x)
    {
      assert IsRow(db, project, newId, x);
    }
  }

  /**
   * A delete by name: no such row, nothing; else the row's vector goes, and the row
   * with it unless another row was superseded by it, which is an error.
   */
  ghost predicate IsDeleted(before: Db, project: int, id: string, after: Db, r: Result<bool, StoreError>) {
    && after.nextId == before.nextId
    && ((forall x :: x in before.notes ==> before.notes[x].syncId != Some(id) || before.notes[x].project != project)
        ==> after == before && r == Success(false))
    && (forall x :: x in before.notes && before.notes[x].syncId == Some(id) && before.notes[x].project == project ==>
          && after.embeddings == before.embeddings - {x}
          && if exists y :: y in before.notes && y != x && before.notes[y].supersededBy == Some(x)
             then after.notes == before.notes && r == Failure(ForeignKeyViolation)
             else after.notes == before.notes - {x} && r == Success(true))
  }

  lemma DeletedMeans(db: Db, project: int, id: string)
    requires Consistent(db)
    ensures var (after, r) := Deleted(db, project, id); IsDeleted(db, project, id, after, r)
  {
    forall x | x in db.notes && db.notes[x].syncId == Some(id) && db.notes[x].project == project
      ensures RowOf(db, project, id) == Some(x)
    {
      assert IsRow(db, project, id, x);
    }
  }

  function Stamped(db: Db, r: int, id: string): Db
    requires r in db.notes
  {
    db.(notes := db.notes[r := db.notes[r].(syncId := Some(id))])
  }

  predicate CollidesAt(db: Db, n: Note, entropy: map<int, UuidV7.Bytes>, r: int) {
    n.syncId.None? && r in entropy && |entropy[r]| == 16 && IsTaken(db, UuidV7.UuidV7At(n.createdAt, entropy[r]))
  }

  /** The backfill part-way: only the rows in `done` have been visited. */
  ghost function BackfilledOn(db: Db, entropy: map<int, UuidV7.Bytes>, done: set<int>): Db
    requires SuppliesEntropy(db, entropy)
  {
    db.(notes := map r | r in db.notes :: if r in done then Backfilled(db, entropy).notes[r] else db.notes[r])
  }

  lemma BackfillEnd(db: Db, entropy: map<int, UuidV7.Bytes>, done: set<int>)
    requires SuppliesEntropy(db, entropy)
    requires forall r :: r in db.notes && db.notes[r].syncId.None? ==> r in done
    ensures BackfilledOn(db, entropy, done) == Backfilled(db, entropy)
  {
    var here, there := BackfilledOn(db, entropy, done).notes, Backfilled(db, entropy).notes;
    assert here.Keys == there.Keys;
    forall r | r in db.notes ensures here[r] == there[r] {
      assert r !in done ==> db.notes[r].syncId.Some?;
    }
    assert here == there;
  }

  // ------------------------------------------------- what the backfill is for

  /** Backfilled rows carry ids that sort in creation order, whatever order they were stored in. */
  lemma BackfillOrder(db: Db, entropy: map<int, UuidV7.Bytes>, r1: int, r2: int)
    requires SuppliesEntropy(db, entropy) && r1 in db.notes && r2 in db.notes
    requires db.notes[r1].syncId.None? && db.notes[r2].syncId.None?
    requires 0 <= db.notes[r1].createdAt < db.notes[r2].createdAt && db.notes[r2].createdAt * 1000 < UuidV7.TWO_48
    ensures var after := Backfilled(db, entropy);
            after.notes[r1].syncId.Some? && after.notes[r2].syncId.Some? &&
            Lex.Less(after.notes[r1].syncId.value, after.notes[r2].syncId.value)
  {
    UuidV7.EarlierSortsFirst(db.notes[r1].createdAt, entropy[r1], db.notes[r2].createdAt, entropy[r2]);
  }
}
