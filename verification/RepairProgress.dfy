/**
 * How far a repair sweep can go: it ends however other requests interfere, and
 * the two requests that leave a row with no sweep coming for it.
 */
module RepairProgress {
  import opened Wrappers
  import opened NoteStore
  import opened WriteBack
  import opened Pages
  import opened Sets
  import opened BatchPush
  import opened Repair

  /** Rows waiting for a vector past the cursor. */
  ghost function Ahead(db: Db, cursor: int): nat { |After(IntOrder(), Missing(db), cursor)| }

  /** An upper bound on the steps left in the sweep, if nothing more is stored. */
  ghost function Work(s: State): int {
    match s.phase
    case Parked => 0
    case Reraising => 1
    case Reading(cursor) => 4 * Ahead(s.db, cursor) + 1
    case EmbeddingPage(page) => 4 * Ahead(s.db, Last(page)) + |page| + 3
    case EmbeddingRows(page, out) => 4 * Ahead(s.db, Last(page)) + |page| - |out| + 2
    case Writing(page, _) => 4 * Ahead(s.db, Last(page)) + 2
  }

  predicate IsSweepStep(e: Event) { e.ReadPage? || e.EmbedPage? || e.EmbedRow? || e.WritePageBack? || e.RaiseAgain? }

  /** At most how many rows a step can add to the backlog. */
  function Stored(e: Event): nat {
    match e
    case Request(_) => 1
    case Batch(_, entries) => |entries|
    case _ => 0
  }

  lemma RowsPastFacts(c: Config, db: Db, cursor: int)
    ensures var rows := RowsPast(c, db, cursor);
            && Ascending(IntOrder(), rows) && (rows == [] ==> After(IntOrder(), Missing(db), cursor) == {})
            && (forall k :: 0 <= k < |rows| ==> rows[k] in Missing(db) && cursor < rows[k])
            && (rows != [] ==> forall r :: r in Missing(db) && cursor < r && r <= rows[|rows| - 1] ==> r in rows)
            && (rows != [] ==> Ahead(db, cursor) == |rows| + Ahead(db, rows[|rows| - 1]))
  {
    var rows := RowsPast(c, db, cursor);
    PageFacts(IntOrder(), Missing(db), cursor, Limit(c));
    assert IsPage(IntOrder(), Missing(db), cursor, Limit(c), rows);
    if rows != [] { PageAdvances(IntOrder(), Missing(db), cursor, Limit(c)); }
    forall k | 0 <= k < |rows| ensures cursor < rows[k] { assert IntOrder()(cursor, rows[k]); }
    forall r | r in Missing(db) && cursor < r && rows != [] && r <= rows[|rows| - 1] ensures r in rows {
      assert IntOrder()(cursor, r) && !IntOrder()(rows[|rows| - 1], r);
    }
    if rows == [] {
      forall r | r in Missing(db) ensures !(cursor < r) { assert cursor < r ==> IntOrder()(cursor, r); }
    }
  }

  lemma ReadPageWorks(c: Config, s: State)
    requires Inv(c, s) && Enabled(s, ReadPage)
    ensures Work(Next(c, s, ReadPage)) < Work(s)
  {
    var cursor, rows := s.phase.cursor, RowsPast(c, s.db, s.phase.cursor);
    RowsPastFacts(c, s.db, cursor);
    assert rows != [] ==> Last(NotesAt(s.db, rows)) == rows[|rows| - 1];
  }

  lemma WritePageWorks(c: Config, s: State)
    requires Inv(c, s) && Enabled(s, WritePageBack)
    ensures Work(Next(c, s, WritePageBack)) < Work(s)
  {
    var (page, out) := (s.phase.page, s.phase.out);
    FilledMeans(s.db, page, out);
    var before := After(IntOrder(), Missing(s.db), Last(page));
    var after := After(IntOrder(), Missing(Filled(s.db, page, out)), Last(page));
    assert after <= before;
    SubsetCount(after, before);
  }

  /** Every step of a sweep uses some of the work up. */
  lemma SweepStepWorks(c: Config, s: State, e: Event)
    requires Inv(c, s) && Enabled(s, e) && IsSweepStep(e)
    ensures Work(Next(c, s, e)) < Work(s)
  {
    match e
    case ReadPage => ReadPageWorks(c, s);
    case WritePageBack => WritePageWorks(c, s);
    case _ => AnswerWorks(c, s, e);
  }

  lemma AnswerWorks(c: Config, s: State, e: Event)
    requires Enabled(s, e) && (e.EmbedPage? || e.EmbedRow? || e.RaiseAgain?)
    ensures Work(Next(c, s, e)) < Work(s)
  {
    if e.EmbedPage? { PageAnswerWorks(c, s, e.answer); }
    if e.EmbedRow? { RowAnswerWorks(c, s, e.answer); }
  }

  lemma PageAnswerWorks(c: Config, s: State, a: Answer)
    requires s.phase.EmbeddingPage?
    ensures Work(PageEmbedded(c, s, a)) < Work(s)
  {
  }

  lemma RowAnswerWorks(c: Config, s: State, a: Answer)
    requires s.phase.EmbeddingRows? && |s.phase.out| < |s.phase.page|
    ensures Work(RowEmbedded(c, s, a)) < Work(s)
  {
  }

  lemma AheadGrows(before: Db, after: Db, cursor: int)
    ensures Ahead(after, cursor) <= Ahead(before, cursor) + |NewlyMissing(before, after)|
  {
    var old', new' := After(IntOrder(), Missing(before), cursor), After(IntOrder(), Missing(after), cursor);
    var added := NewlyMissing(before, after);
    assert new' <= old' + (added - old');
    SubsetCount(new', old' + (added - old'));
    SubsetCount(added - old', added);
  }

  lemma {:induction false} PushAddsFew(db: Db, project: int, entries: seq<Entry>)
    requires Consistent(db)
    ensures Push(db, project, entries).db.nextId <= db.nextId + |entries|
    decreases |entries|
  {
    if entries != [] {
      var e := entries[0];
      if LiveRow(db, project, e.externalId).Some? {
        PushAddsFew(db, project, entries[1..]);
      } else if !Clashes(db, NewNote(project, e)) {
        PushAddsFew(Added(db, NewNote(project, e), e.vector).value, project, entries[1..]);
      }
    }
  }

  lemma {:induction false} RangeCount(s: set<int>, from: int, len: nat)
    requires forall r :: r in s ==> from <= r < from + len
    ensures |s| <= len
    decreases len
  {
    if len == 0 {
      assert forall r :: r in s ==> r < from;
      assert s <= {};
    } else {
      var last := from + len - 1;
      RangeCount(s - {last}, from, len - 1);
      SubsetCount(s, (s - {last}) + {last});
    }
  }

  lemma PushBacklogSize(db: Db, project: int, entries: seq<Entry>)
    requires Consistent(db)
    ensures |NewlyMissing(db, Push(db, project, entries).db)| <= |entries|
  {
    var after := Push(db, project, entries).db;
    PushGrows(db, project, entries);
    PushAddsFew(db, project, entries);
    forall r | r in NewlyMissing(db, after) ensures db.nextId <= r < db.nextId + |entries| {
    }
    RangeCount(NewlyMissing(db, after), db.nextId, |entries|);
  }

  lemma RequestedWorks(s: State, db: Db, raises: bool, n: nat)
    requires |NewlyMissing(s.db, db)| <= n
    ensures Work(Requested(s, db, raises)) <= Work(s) + 4 * n
  {
    match s.phase
    case Reading(cursor) => AheadGrows(s.db, db, cursor);
    case EmbeddingPage(page) => AheadGrows(s.db, db, Last(page));
    case EmbeddingRows(page, _) => AheadGrows(s.db, db, Last(page));
    case Writing(page, _) => AheadGrows(s.db, db, Last(page));
    case _ =>
  }

  /** Other requests add at most four steps for each row they store. */
  lemma OtherStepWorks(c: Config, s: State, e: Event)
    requires Inv(c, s) && Enabled(s, e) && !IsSweepStep(e) && !e.Wake?
    ensures Work(Next(c, s, e)) <= Work(s) + 4 * Stored(e)
  {
    match e
    case Request(op) =>
      NewlyMissingBy(s.db, op);
      RequestedWorks(s, Applied(s.db, op), RaisesFor(s.db, op), 1);
    case Batch(project, entries) =>
      PushBacklogSize(s.db, project, entries);
      var out := Push(s.db, project, entries);
      RequestedWorks(s, out.db, BatchRaises(out), |entries|);
    case PayRaise =>
    case BecomeReady =>
    case BecomeUnavailable =>
  }

  function SweepSteps(es: seq<Event>): nat {
    if es == [] then 0 else (if IsSweepStep(es[0]) then 1 else 0) + SweepSteps(es[1..])
  }

  function AllStored(es: seq<Event>): nat { if es == [] then 0 else Stored(es[0]) + AllStored(es[1..]) }

  /** A sweep under way ends: its steps are bounded by what it has left and what other requests store meanwhile. */
  lemma {:induction false} SweepEnds(c: Config, s: State, es: seq<Event>)
    requires Inv(c, s) && IsRun(c, s, es) && forall k :: 0 <= k < |es| ==> !es[k].Wake?
    ensures SweepSteps(es) <= Work(s) + 4 * AllStored(es)
    decreases |es|
  {
    if es != [] {
      var s' := Next(c, s, es[0]);
      NextInv(c, s, es[0]);
      assert !es[0].Wake?;
      if IsSweepStep(es[0]) { SweepStepWorks(c, s, es[0]); } else { OtherStepWorks(c, s, es[0]); }
      SweepEnds(c, s', es[1..]);
    }
  }

  /** Nothing wakes the worker of a quiet server but a raise. */
  lemma QuietStaysQuiet(c: Config, s: State, e: Event)
    requires IsQuiet(s) && Enabled(s, e) && !IsQuiet(Next(c, s, e))
    ensures Next(c, s, e).owed == 1 && (e.Request? || e.Batch? || e.BecomeReady?)
  {
  }

  /**
   * Of the worker's own steps only the one after a saturated stop raises, and only a
   * full admission lane leads there.
   */
  lemma OnlySaturationRaises(c: Config, s: State, e: Event)
    requires Inv(c, s) && Enabled(s, e) && (IsSweepStep(e) || e.Wake?)
    ensures var s' := Next(c, s, e);
            && s'.owed == s.owed && (s'.raises != s.raises <==> e == RaiseAgain)
            && (s'.phase == Reraising <==> e == EmbedPage(Busy) || e == EmbedRow(Busy))
  {
    match e
    case EmbedPage(_) =>
    case EmbedRow(_) =>
    case _ =>
  }

  /** No step of anyone's ever replaces a vector, revives a row or changes its text. */
  lemma NothingIsReplaced(c: Config, s: State, e: Event)
    requires Inv(c, s) && Enabled(s, e)
    ensures Extends(s.db, Next(c, s, e).db)
  {
    match e
    case Request(op) => AppliedExtends(s.db, op);
    case Batch(project, entries) =>
      PushGrows(s.db, project, entries);
      GrowsExtends(s.db, Push(s.db, project, entries).db);
    case WritePageBack => FilledExtends(s.db, s.phase.page, s.phase.out);
    case _ =>
      GrowsExtends(s.db, s.db);
      assert Next(c, s, e).db == s.db;
  }

  lemma GrowsExtends(before: Db, after: Db)
    requires Grows(before, after) && Consistent(before)
    ensures Extends(before, after)
  {
  }

  lemma FilledExtends(db: Db, page: seq<VectorlessNote>, out: seq<Option<Vector>>)
    requires |out| == |page| && RowsAscend(page)
    ensures Extends(db, Filled(db, page, out))
  {
    FilledMeans(db, page, out);
    forall r | r in db.embeddings ensures HasVector(Filled(db, page, out), r, db.embeddings[r]) {
    }
  }

  // ------------------------------------------------------ an undisturbed sweep

  /** One page's round with nothing else happening and the embedder working. */
  ghost function StillRound(c: Config, s: State): State
    requires s.phase.Reading?
  {
    var read := PageRead(c, s);
    if read.phase.Parked? then read else PageWritten(PageEmbedded(c, read, Vectors))
  }

  lemma StillRoundInv(c: Config, s: State)
    requires Inv(c, s) && s.ready && s.phase.Reading?
    ensures Inv(c, StillRound(c, s)) && Work(StillRound(c, s)) < Work(s) && StillRound(c, s).ready
    ensures StillRound(c, s).phase.Parked? || StillRound(c, s).phase.Reading?
  {
    NextInv(c, s, ReadPage);
    ReadPageWorks(c, s);
    var read := PageRead(c, s);
    if read.phase.EmbeddingPage? {
      EmbeddedPageInv(c, read, Vectors);
      var embedded := PageEmbedded(c, read, Vectors);
      WritePageWorks(c, embedded);
      PageWrittenInv(c, embedded);
    }
  }

  lemma StillRoundMeans(c: Config, s: State)
    requires Consistent(s.db) && s.phase.Reading?
    ensures var rows := RowsPast(c, s.db, s.phase.cursor);
            var s' := StillRound(c, s);
            && (rows == [] ==> s' == s.(phase := Parked))
            && (rows != [] ==>
                  s'.phase == Reading(rows[|rows| - 1]) && Missing(s'.db) == Missing(s.db) - ToSet(rows)
                  && s'.stats == s.stats.(scanned := s.stats.scanned + |rows|, repaired := s.stats.repaired + |rows|))
  {
    var rows := RowsPast(c, s.db, s.phase.cursor);
    if rows != [] { StillPage(c, s.db, s.phase.cursor, rows); }
  }

  lemma PageLands(c: Config, db: Db, cursor: int, rows: seq<int>)
    requires Consistent(db) && rows == RowsPast(c, db, cursor) && rows != []
    ensures var page := NotesAt(db, rows);
            && RowsAscend(page) && Last(page) == rows[|rows| - 1]
            && forall k :: 0 <= k < |page| ==> page[k].rowid == rows[k] && Lands(db, page, Embeddings(c, page), k)
  {
    PageFacts(IntOrder(), Missing(db), cursor, Limit(c));
    assert IsPage(IntOrder(), Missing(db), cursor, Limit(c), rows);
    NotesAtRows(db, rows);
  }

  lemma LandedLeaves(db: Db, page: seq<VectorlessNote>, out: seq<Option<Vector>>)
    requires |out| == |page| && RowsAscend(page)
    ensures Missing(Filled(db, page, out)) == Missing(db) - LandedIn(db, page, out)
  {
    FilledMeans(db, page, out);
    NewVectorsLanded(db, page, out);
    var db' := Filled(db, page, out);
    forall r | r in LandedIn(db, page, out) ensures r in db'.embeddings {
      var k :| 0 <= k < |page| && Lands(db, page, out, k) && page[k].rowid == r;
      assert HasVector(db', page[k].rowid, out[k].value);
    }
    forall r | r in db.embeddings ensures r in db'.embeddings { assert HasVector(db', r, db.embeddings[r]); }
  }

  /** Every row of a page just read lands its vector. */
  lemma StillPage(c: Config, db: Db, cursor: int, rows: seq<int>)
    requires Consistent(db) && rows == RowsPast(c, db, cursor) && rows != []
    ensures var page := NotesAt(db, rows);
            var out := Embeddings(c, page);
            && Tallied(db, page, out) == Tally(|rows|, 0, 0) && Last(page) == rows[|rows| - 1]
            && Missing(Filled(db, page, out)) == Missing(db) - ToSet(rows)
  {
    PageLands(c, db, cursor, rows);
    var page := NotesAt(db, rows);
    var out := Embeddings(c, page);
    AllLand(db, page, out);
    LandedLeaves(db, page, out);
    forall r | r in ToSet(rows) ensures r in LandedIn(db, page, out) {
      var k :| 0 <= k < |rows| && rows[k] == r;
      assert Lands(db, page, out, k) && page[k].rowid == r;
    }
    assert LandedIn(db, page, out) == ToSet(rows);
  }

  lemma {:induction false} AllLand(db: Db, page: seq<VectorlessNote>, out: seq<Option<Vector>>)
    requires |out| == |page| && forall k :: 0 <= k < |page| ==> Lands(db, page, out, k)
    ensures Tallied(db, page, out) == Tally(|page|, 0, 0)
  {
    if page != [] {
      assert Lands(db, page, out, 0);
      forall k | 0 <= k < |page| - 1 ensures Lands(db, page[1..], out[1..], k) { assert Lands(db, page, out, k + 1); }
      AllLand(db, page[1..], out[1..]);
    }
  }

  /** The whole sweep, undisturbed. */
  ghost function StillSweep(c: Config, s: State): State
    requires Inv(c, s) && s.ready && s.phase.Reading?
    decreases Work(s)
  {
    StillRoundInv(c, s);
    var s' := StillRound(c, s);
    if s'.phase.Parked? then s' else StillSweep(c, s')
  }

  /**
   * An undisturbed sweep of a working embedder gives every vectorless row past the
   * cursor its vector, and then parks.
   */
  lemma {:induction false} StillSweepRepairsAll(c: Config, s: State)
    requires Inv(c, s) && s.ready && s.phase.Reading?
    ensures var s', cursor := StillSweep(c, s), s.phase.cursor;
            && s'.phase == Parked && Missing(s'.db) == Missing(s.db) - After(IntOrder(), Missing(s.db), cursor)
            && s'.stats == s.stats.(scanned := s.stats.scanned + Ahead(s.db, cursor),
                                    repaired := s.stats.repaired + Ahead(s.db, cursor))
    decreases Work(s)
  {
    StillRoundInv(c, s);
    StillRoundMeans(c, s);
    var cursor, rows, s' := s.phase.cursor, RowsPast(c, s.db, s.phase.cursor), StillRound(c, s);
    RowsPastFacts(c, s.db, cursor);
    if rows != [] {
      StillSplit(s.db, s'.db, cursor, rows);
      StillSweepRepairsAll(c, s');
    }
  }

  lemma StillSplit(db: Db, db': Db, cursor: int, rows: seq<int>)
    requires rows != [] && Ascending(IntOrder(), rows) && Missing(db') == Missing(db) - ToSet(rows)
    requires forall k :: 0 <= k < |rows| ==> rows[k] in Missing(db) && cursor < rows[k]
    requires forall r :: r in Missing(db) && cursor < r && r <= rows[|rows| - 1] ==> r in rows
    ensures var last := rows[|rows| - 1];
            && After(IntOrder(), Missing(db'), last) == After(IntOrder(), Missing(db), last)
            && Missing(db') - After(IntOrder(), Missing(db'), last) ==
               Missing(db) - After(IntOrder(), Missing(db), cursor)
  {
    var last := rows[|rows| - 1];
    forall r | r in rows ensures r <= last {
      var k :| 0 <= k < |rows| && rows[k] == r;
      assert k < |rows| - 1 ==> IntOrder()(rows[k], last);
    }
  }

  // ----------------------------------------------------- the two real gaps

  /** A quiet server that strips a row leaves it without a vector, with nothing coming for it. */
  lemma StrippedIsStranded(c: Config, s: State, op: Op, r: int)
    requires Inv(c, s) && IsQuiet(s) && Enabled(s, Request(op)) && Strips(s.db, op, r)
    ensures var s' := Next(c, s, Request(op)); IsQuiet(s') && IsMissing(s'.db, r) && !IsCovered(s', r)
  {
    NewlyMissingRow(s.db, op, r);
  }

  /** So does a quiet server that a batch is cut short on after storing an entry without a vector. */
  lemma CutShortIsStranded(c: Config, s: State, project: int, entries: seq<Entry>)
    requires Inv(c, s) && IsQuiet(s)
    requires WillStrand(LiveIds(s.db, project), KnownIds(s.db, project), TakenIds(s.db), entries)
    ensures var s' := Next(c, s, Batch(project, entries));
            IsQuiet(s') && exists r :: IsMissing(s'.db, r) && !IsCovered(s', r)
  {
    PushBacklog(s.db, project, entries);
    PushStrandsIff(s.db, project, entries);
    var s' := Next(c, s, Batch(project, entries));
    var r :| r in NewlyMissing(s.db, s'.db);
    assert IsMissing(s'.db, r) && !IsCovered(s', r);
  }

  /** A server that has loaded its model and swept its empty table. */
  ghost function Idle(): State {
    State(EMPTY, false, 0, true, Parked, NO_STATS, 1, 1, [], 0, {}, {}, {}, {})
  }

  lemma IdleIsReached(c: Config)
    ensures Reaches(c, Start(EMPTY), Idle()) && Inv(c, Idle())
  {
    var s0 := Start(EMPTY);
    var s1 := Next(c, s0, BecomeReady);
    var s2 := Next(c, s1, PayRaise);
    var s3 := Next(c, s2, Wake);
    assert After(IntOrder(), Missing(EMPTY), 0) == {};
    assert RowsPast(c, EMPTY, 0) == [];
    ReachesNext(c, s0, BecomeReady);
    ReachesNext(c, s1, PayRaise);
    ReachesOn(c, s0, s1, s2);
    ReachesNext(c, s2, Wake);
    ReachesOn(c, s0, s2, s3);
    ReachesNext(c, s3, ReadPage);
    ReachesOn(c, s0, s3, Idle());
    StartInv(c, EMPTY);
    ReachesInv(c, s0, Idle());
  }

  /** Two new entries restored under one id, for which the embedder gave no vector. */
  predicate Collide(e1: Entry, e2: Entry) {
    e1.externalId != e2.externalId && e1.id == e2.id && e1.vector.None? && e2.vector.None?
  }

  ghost predicate LeavesBehind(s: State, r: int) {
    IsQuiet(s) && s.ready && IsMissing(s.db, r) && r !in s.refused && !IsCovered(s, r)
  }

  /** A server with its model loaded, nothing raised, and nothing refused. */
  ghost predicate IsAtRest(c: Config, s: State) { Inv(c, s) && IsQuiet(s) && s.ready && s.refused == {} }

  /** The step takes a reachable server at rest to one that leaves row `r` behind. */
  ghost predicate Abandons(c: Config, s: State, e: Event, r: int) {
    && Reaches(c, Start(EMPTY), s) && IsAtRest(c, s) && Enabled(s, e)
    && Reaches(c, Start(EMPTY), Next(c, s, e)) && LeavesBehind(Next(c, s, e), r)
  }

  lemma SomeIdle(c: Config) returns (s: State)
    ensures IsAtRest(c, s) && s.db == EMPTY && Reaches(c, Start(EMPTY), s)
  {
    IdleIsReached(c);
    s := Idle();
  }

  lemma CutShortAbandons(c: Config, s: State, project: int, entries: seq<Entry>)
    requires Reaches(c, Start(EMPTY), s) && IsAtRest(c, s)
    requires WillStrand(LiveIds(s.db, project), KnownIds(s.db, project), TakenIds(s.db), entries)
    ensures exists r :: Abandons(c, s, Batch(project, entries), r)
  {
    CutShortIsStranded(c, s, project, entries);
    ReachesNext(c, s, Batch(project, entries));
    var s' := Next(c, s, Batch(project, entries));
    ReachesOn(c, Start(EMPTY), s, s');
    var r :| IsMissing(s'.db, r) && !IsCovered(s', r);
    assert LeavesBehind(s', r);
    assert Abandons(c, s, Batch(project, entries), r);
  }

  /** The first gap is real: pushed to an idle server, such a batch leaves a row behind. */
  lemma CutShortIsReached(c: Config, project: int, e1: Entry, e2: Entry)
    requires Collide(e1, e2)
    ensures exists s, r :: Abandons(c, s, Batch(project, [e1, e2]), r)
  {
    var idle := SomeIdle(c);
    CutShortAbandons(c, idle, project, [e1, e2]);
  }

  /** A call that owes no raise leaves a server at rest. */
  lemma StaysAtRest(c: Config, start: State, s: State, op: Op) returns (s': State)
    requires Reaches(c, start, s) && IsAtRest(c, s) && IsAllowed(op) && !RaisesFor(s.db, op)
    ensures s' == Next(c, s, Request(op)) && s'.db == Applied(s.db, op)
    ensures Reaches(c, start, s') && IsAtRest(c, s')
  {
    s' := Next(c, s, Request(op));
    NextInv(c, s, Request(op));
    ReachesNext(c, s, Request(op));
    ReachesOn(c, start, s, s');
  }

  /** A new active note of `project`, pushed by no one. */
  function Fresh(project: int, id: string): Note { Note(project, "t", "b", 0, true, Some(id), None, None) }

  /** Two embedded notes, the second superseded by the first: deleting the first strips it. */
  lemma SupersededStrips(project: int, first: string, second: string, v: Vector)
    requires first != second
    ensures var db := Db(map[1 := Fresh(project, first), 2 := Fresh(project, second)], map[1 := v, 2 := v], 3);
            var op := Supersede(project, second, first);
            !RaisesFor(db, op) && Strips(Applied(db, op), Delete(project, first), 1)
  {
    var db := Db(map[1 := Fresh(project, first), 2 := Fresh(project, second)], map[1 := v, 2 := v], 3);
    assert IsRow(db, project, first, 1);
    assert RowOf(db, project, first) == Some(1);
    var after := Applied(db, Supersede(project, second, first));
    assert after.notes[2].supersededBy == Some(1);
    assert IsRow(after, project, first, 1);
  }

  /** The second gap is real: store two notes, supersede one by the other, and delete the successor. */
  lemma StrippedIsReached(c: Config, project: int, first: string, second: string, v: Vector)
    requires first != second
    ensures exists s :: Abandons(c, s, Request(Delete(project, first)), 1)
  {
    var start := Start(EMPTY);
    var s0 := SomeIdle(c);
    var s1 := StaysAtRest(c, start, s0, Add(Fresh(project, first), Some(v)));
    var s2 := StaysAtRest(c, start, s1, Add(Fresh(project, second), Some(v)));
    SupersededStrips(project, first, second, v);
    var s3 := StaysAtRest(c, start, s2, Supersede(project, second, first));
    StrippedIsStranded(c, s3, Delete(project, first), 1);
    var s4 := StaysAtRest(c, start, s3, Delete(project, first));
    assert Abandons(c, s3, Request(Delete(project, first)), 1);
  }
}
