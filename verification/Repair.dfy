/** The vector repair worker (repair.rs) as a step system over the store. */
module Repair {
  import opened Wrappers
  import opened NoteStore
  import opened WriteBack
  import opened Pages
  import opened Sets
  import opened BatchPush

  // The state is the store, its wake-up signal, the embedder's readiness and the
  // worker's place in a sweep. The worker gives way to other requests at every
  // await, so a step is what happens between two of them: one request under the
  // store's lock, one raise, one page read, one embed answer, one write-back.

  /** Rows per page, and the model: the vector of a text. */
  datatype Config = Config(pageSize: nat, model: string -> Vector)

  /** `page_size.max(1)`. */
  function Limit(c: Config): nat { if c.pageSize < 1 then 1 else c.pageSize }

  datatype Phase =
    | Parked
    | Reading(cursor: int)
    | EmbeddingPage(page: seq<VectorlessNote>)
    | EmbeddingRows(page: seq<VectorlessNote>, out: seq<Option<Vector>>)
    | Writing(page: seq<VectorlessNote>, out: seq<Option<Vector>>)
    | Reraising

  datatype Stats = Stats(scanned: nat, repaired: nat, failed: nat, stoppedEarly: bool, stoppedSaturated: bool)

  const NO_STATS := Stats(0, 0, 0, false, false)

  /**
   * `owed` counts raises a request has still to make for what it stored. The
   * last six fields are history: `attempted` lists the rows this sweep read,
   * `passed` counts those that stopped qualifying, `refused` holds those written
   * back as refused, `rejected` those whose own embed call failed, `unannounced`
   * the rows that lost or never got a vector in a request that does not raise,
   * all three since the last wake-up; `written` holds the rows whose vector, if
   * they still have one, a sweep wrote.
   */
  datatype State = State(
    db: Db, permit: bool, owed: nat, ready: bool, phase: Phase, stats: Stats, raises: nat, sweeps: nat,
    attempted: seq<int>, passed: nat, refused: set<int>, rejected: set<int>,
    unannounced: set<int>, written: set<int>)

  /** `embed_for_storage`: the backend is asked for first, then an admission permit, then the embedder. */
  datatype Answer = NotReady | Busy | Failed | Vectors

  datatype Event =
    | Request(op: Op)
    | Batch(project: int, entries: seq<Entry>)
    | PayRaise
    | BecomeReady
    | BecomeUnavailable
    | Wake
    | ReadPage
    | EmbedPage(answer: Answer)
    | EmbedRow(answer: Answer)
    | WritePageBack
    | RaiseAgain

  predicate CanAnswer(s: State, a: Answer) { (a == NotReady ==> !s.ready) && (a == Busy ==> s.ready) }

  predicate Enabled(s: State, e: Event) {
    match e
    case Request(op) => IsAllowed(op)
    case PayRaise => s.owed > 0
    case Wake => s.phase.Parked? && s.permit
    case ReadPage => s.phase.Reading?
    case EmbedPage(a) => s.phase.EmbeddingPage? && CanAnswer(s, a)
    case EmbedRow(a) => s.phase.EmbeddingRows? && |s.phase.out| < |s.phase.page| && CanAnswer(s, a)
    case WritePageBack => s.phase.Writing? && |s.phase.out| == |s.phase.page|
    case RaiseAgain => s.phase.Reraising?
    case _ => true
  }

  // -------------------------------------------------------------- the steps

  /**
   * Another task's call left `db` behind; only one that `raises` owes the signal
   * a raise. A vector it wrote is not a sweep's.
   */
  ghost function Requested(s: State, db: Db, raises: bool): State {
    var s' := s.(db := db, written := s.written - (db.embeddings.Keys - s.db.embeddings.Keys));
    if raises then s'.(owed := s.owed + 1) else s'.(unannounced := s.unannounced + NewlyMissing(s.db, db))
  }

  /** The single-note route raises after storing a note without a vector; no other call here does. */
  predicate RaisesFor(db: Db, op: Op) { op.Add? && op.embedding.None? && !Clashes(db, op.note) }

  /** The batch route raises when some entry is left without a vector, unless an error ended it first. */
  predicate BatchRaises(out: Outcome) { out.error.None? && SomeBare(out.items) }

  function NoteAt(db: Db, r: int): VectorlessNote {
    if r in db.notes then VectorlessNote(r, db.notes[r].title, db.notes[r].body) else VectorlessNote(r, "", "")
  }

  function NotesAt(db: Db, rows: seq<int>): (page: seq<VectorlessNote>)
    ensures |page| == |rows| && forall k :: 0 <= k < |rows| ==> page[k] == NoteAt(db, rows[k])
  {
    seq(|rows|, k requires 0 <= k < |rows| => NoteAt(db, rows[k]))
  }

  /** `notes_missing_embeddings` past the cursor. */
  ghost function RowsPast(c: Config, db: Db, cursor: int): seq<int> {
    Page(IntOrder(), Missing(db), cursor, Limit(c))
  }

  ghost function PageRead(c: Config, s: State): State
    requires s.phase.Reading?
  {
    var rows := RowsPast(c, s.db, s.phase.cursor);
    if rows == [] then s.(phase := Parked)
    else s.(phase := EmbeddingPage(NotesAt(s.db, rows)), attempted := s.attempted + rows)
  }

  function StoppedNotReady(s: State): State { s.(phase := Parked, stats := s.stats.(stoppedEarly := true)) }

  function StoppedSaturated(s: State): State {
    s.(phase := Reraising, stats := s.stats.(stoppedEarly := true, stoppedSaturated := true))
  }

  function Embeddings(c: Config, page: seq<VectorlessNote>): (out: seq<Option<Vector>>)
    ensures |out| == |page| && forall k :: 0 <= k < |page| ==> out[k] == Some(c.model(TextOf(page[k])))
  {
    seq(|page|, k requires 0 <= k < |page| => Some(c.model(TextOf(page[k]))))
  }

  function PageEmbedded(c: Config, s: State, a: Answer): State
    requires s.phase.EmbeddingPage?
  {
    match a
    case NotReady => StoppedNotReady(s)
    case Busy => StoppedSaturated(s)
    case Failed => s.(phase := EmbeddingRows(s.phase.page, []))
    case Vectors => s.(phase := Writing(s.phase.page, Embeddings(c, s.phase.page)))
  }

  function AfterRow(page: seq<VectorlessNote>, out: seq<Option<Vector>>): Phase {
    if |out| < |page| then EmbeddingRows(page, out) else Writing(page, out)
  }

  function RowEmbedded(c: Config, s: State, a: Answer): State
    requires s.phase.EmbeddingRows? && |s.phase.out| < |s.phase.page|
  {
    var (page, out) := (s.phase.page, s.phase.out);
    match a
    case NotReady => StoppedNotReady(s)
    case Busy => StoppedSaturated(s)
    case Failed => s.(phase := AfterRow(page, out + [None]))
    case Vectors => s.(phase := AfterRow(page, out + [Some(c.model(TextOf(page[|out|])))]))
  }

  function Last(page: seq<VectorlessNote>): int { if page == [] then 0 else page[|page| - 1].rowid }

  ghost function PageWritten(s: State): State
    requires s.phase.Writing? && |s.phase.out| == |s.phase.page|
  {
    var (page, out) := (s.phase.page, s.phase.out);
    var t := Tallied(s.db, page, out);
    s.(db := Filled(s.db, page, out), phase := Reading(Last(page)),
       stats := s.stats.(scanned := s.stats.scanned + |page|, repaired := s.stats.repaired + t.repaired,
                         failed := s.stats.failed + t.failed),
       passed := s.passed + t.passed, refused := s.refused + RefusedIn(page, out),
       written := s.written + LandedIn(s.db, page, out))
  }

  /** A new sweep: it starts over from the first row, so earlier refusals and gaps come within reach again. */
  function Woken(s: State): State {
    s.(permit := false, phase := Reading(0), stats := NO_STATS, sweeps := s.sweeps + 1,
       attempted := [], passed := 0, refused := {}, rejected := {}, unannounced := {})
  }

  /** `RepairSignal::raise`: the permit is held or taken already, never counted twice. */
  function Raised(s: State): State { s.(permit := true, raises := s.raises + 1) }

  /** The row whose own call this was, if it failed. */
  function RejectedBy(s: State, a: Answer): set<int>
    requires s.phase.EmbeddingRows? && |s.phase.out| < |s.phase.page|
  {
    if a == Failed then {s.phase.page[|s.phase.out|].rowid} else {}
  }

  ghost function Next(c: Config, s: State, e: Event): State
    requires Enabled(s, e)
  {
    match e
    case Request(op) => Requested(s, Applied(s.db, op), RaisesFor(s.db, op))
    case Batch(project, entries) =>
      (var out := Push(s.db, project, entries); Requested(s, out.db, BatchRaises(out)))
    case PayRaise => Raised(s).(owed := s.owed - 1)
    case BecomeReady => s.(ready := true, owed := s.owed + 1)
    case BecomeUnavailable => s.(ready := false)
    case Wake => Woken(s)
    case ReadPage => PageRead(c, s)
    case EmbedPage(a) => PageEmbedded(c, s, a)
    case EmbedRow(a) => RowEmbedded(c, s, a).(rejected := s.rejected + RejectedBy(s, a))
    case WritePageBack => PageWritten(s)
    case RaiseAgain => Raised(s).(phase := Parked)
  }

  /** A server just started: the worker parked, nothing raised, the model still loading. */
  function Start(db: Db): State { State(db, false, 0, false, Parked, NO_STATS, 0, 0, [], 0, {}, {}, {}, {}) }

  // ---------------------------------------------------------- the invariant

  predicate OnPage(page: seq<VectorlessNote>, r: int) { exists k :: 0 <= k < |page| && page[k].rowid == r }

  /** The sweep under way will still come to row `r`. */
  predicate WillReach(p: Phase, r: int) {
    match p
    case Reading(cursor) => r > cursor
    case EmbeddingPage(page) => OnPage(page, r) || r > Last(page)
    case EmbeddingRows(page, _) => OnPage(page, r) || r > Last(page)
    case Writing(page, _) => OnPage(page, r) || r > Last(page)
    case _ => false
  }

  predicate IsCovered(s: State, r: int) {
    s.permit || s.owed > 0 || s.phase.Reraising? || WillReach(s.phase, r)
  }

  /** An active row without a vector that the embedder could serve and has not refused is never left behind. */
  ghost predicate NothingStranded(s: State) {
    s.ready ==> forall r :: IsMissing(s.db, r) && r !in s.refused && r !in s.unannounced ==> IsCovered(s, r)
  }

  predicate IsCurrent(db: Db, n: VectorlessNote) {
    && n.rowid < db.nextId
    && (n.rowid in db.notes ==> db.notes[n.rowid].title == n.title && db.notes[n.rowid].body == n.body)
  }

  /** A page in hand: in order, non-empty, and still what the store holds for every row that is left. */
  predicate PageIsCurrent(db: Db, page: seq<VectorlessNote>) {
    page != [] && RowsAscend(page) && forall k :: 0 <= k < |page| ==> IsCurrent(db, page[k])
  }

  /** Every vector in hand is the model's for its own row's text. */
  predicate VectorsFit(c: Config, page: seq<VectorlessNote>, out: seq<Option<Vector>>) {
    |out| <= |page| && forall k :: 0 <= k < |out| && out[k].Some? ==> out[k].value == c.model(TextOf(page[k]))
  }

  predicate PhaseFits(c: Config, db: Db, p: Phase) {
    match p
    case EmbeddingPage(page) => PageIsCurrent(db, page)
    case EmbeddingRows(page, out) => PageIsCurrent(db, page) && VectorsFit(c, page, out) && |out| < |page|
    case Writing(page, out) => PageIsCurrent(db, page) && VectorsFit(c, page, out) && |out| == |page|
    case _ => true
  }

  /** Every row the sweep has read is at or before its place in the table. */
  predicate NoneAhead(p: Phase, attempted: seq<int>) {
    match p
    case Reading(cursor) => AllUpTo(attempted, cursor)
    case EmbeddingPage(page) => AllUpTo(attempted, Last(page))
    case EmbeddingRows(page, _) => AllUpTo(attempted, Last(page))
    case Writing(page, _) => AllUpTo(attempted, Last(page))
    case _ => true
  }

  predicate AllUpTo(rows: seq<int>, last: int) { forall k :: 0 <= k < |rows| ==> rows[k] <= last }

  /** No row is read twice in one sweep. */
  predicate AttemptsAscend(s: State) { Ascending(IntOrder(), s.attempted) && NoneAhead(s.phase, s.attempted) }

  predicate StatsAddUp(s: State) { s.stats.scanned == s.stats.repaired + s.stats.failed + s.passed }

  /** Every vector a sweep wrote that is still there is the model's for that row's text. */
  predicate WrittenFit(c: Config, db: Db, written: set<int>) {
    forall r :: r in written ==> r < db.nextId && IsFit(c, db, r)
  }

  predicate IsFit(c: Config, db: Db, r: int) {
    r in db.embeddings && r in db.notes ==>
      db.embeddings[r] == c.model(StorageText(db.notes[r].title, db.notes[r].body))
  }

  /** An empty slot in hand stands for a row whose own call failed. */
  predicate EmptySlotsRejected(p: Phase, rejected: set<int>) {
    match p
    case EmbeddingRows(page, out) => NonesAreIn(page, out, rejected)
    case Writing(page, out) => NonesAreIn(page, out, rejected)
    case _ => true
  }

  predicate NonesAreIn(page: seq<VectorlessNote>, out: seq<Option<Vector>>, rejected: set<int>) {
    forall k :: 0 <= k < |out| && k < |page| && out[k].None? ==> page[k].rowid in rejected
  }

  /** No row is written off but one whose own call failed. */
  predicate RefusalsAreReal(s: State) { s.refused <= s.rejected && EmptySlotsRejected(s.phase, s.rejected) }

  predicate SweepsPaidFor(s: State) { s.sweeps + (if s.permit then 1 else 0) <= s.raises }

  ghost predicate Inv(c: Config, s: State) {
    && Consistent(s.db)
    && NothingStranded(s)
    && PhaseFits(c, s.db, s.phase)
    && AttemptsAscend(s)
    && StatsAddUp(s)
    && WrittenFit(c, s.db, s.written)
    && RefusalsAreReal(s)
    && SweepsPaidFor(s)
  }

  lemma StartInv(c: Config, db: Db)
    requires Consistent(db)
    ensures Inv(c, Start(db))
  {
  }

  // ------------------------------------------------------------- requests

  lemma RequestedInv(c: Config, s: State, db: Db, raises: bool)
    requires Inv(c, s) && Consistent(db) && Extends(s.db, db)
    ensures Inv(c, Requested(s, db, raises))
  {
    var s' := Requested(s, db, raises);
    forall r | s'.ready && IsMissing(db, r) && r !in s'.refused && r !in s'.unannounced ensures IsCovered(s', r) {
      assert !raises && !IsMissing(s.db, r) ==> r in NewlyMissing(s.db, db);
      assert IsMissing(s.db, r) ==> IsCovered(s, r);
    }
    RequestedPhase(c, s.phase, s.db, db);
  }

  lemma RequestedPhase(c: Config, p: Phase, before: Db, after: Db)
    requires PhaseFits(c, before, p) && Extends(before, after)
    ensures PhaseFits(c, after, p)
  {
    forall n: VectorlessNote | IsCurrent(before, n) ensures IsCurrent(after, n) {
    }
  }

  // --------------------------------------------------------- the worker's steps

  lemma WokenInv(c: Config, s: State)
    requires Inv(c, s) && Enabled(s, Wake)
    ensures Inv(c, Woken(s))
  {
  }

  lemma RaisedInv(c: Config, s: State, e: Event)
    requires Inv(c, s) && Enabled(s, e) && (e.PayRaise? || e.RaiseAgain?)
    ensures Inv(c, Next(c, s, e))
  {
  }

  lemma ReadinessInv(c: Config, s: State, e: Event)
    requires Inv(c, s) && (e.BecomeReady? || e.BecomeUnavailable?)
    ensures Inv(c, Next(c, s, e))
  {
  }

  lemma NotesAtRows(db: Db, rows: seq<int>)
    requires Consistent(db) && rows != [] && Ascending(IntOrder(), rows)
    requires forall k :: 0 <= k < |rows| ==> rows[k] in db.notes
    ensures PageIsCurrent(db, NotesAt(db, rows)) && Last(NotesAt(db, rows)) == rows[|rows| - 1]
    ensures forall r :: r in rows ==> OnPage(NotesAt(db, rows), r)
  {
    var page := NotesAt(db, rows);
    forall i, j | 0 <= i < j < |page| ensures page[i].rowid < page[j].rowid { assert IntOrder()(rows[i], rows[j]); }
    forall k | 0 <= k < |rows| ensures OnPage(page, rows[k]) { assert page[k].rowid == rows[k]; }
  }

  lemma AttemptsGrow(before: seq<int>, cursor: int, rows: seq<int>)
    requires Ascending(IntOrder(), before) && AllUpTo(before, cursor) && rows != [] && Ascending(IntOrder(), rows)
    requires forall k :: 0 <= k < |rows| ==> cursor < rows[k]
    ensures Ascending(IntOrder(), before + rows) && AllUpTo(before + rows, rows[|rows| - 1])
  {
    var all, last := before + rows, rows[|rows| - 1];
    forall i, j | 0 <= i < j < |all| ensures IntOrder()(all[i], all[j]) {
      if i >= |before| { assert IntOrder()(rows[i - |before|], rows[j - |before|]); }
      else if j < |before| { assert IntOrder()(before[i], before[j]); }
      else { assert before[i] <= cursor < rows[j - |before|]; }
    }
    forall k | 0 <= k < |all| ensures all[k] <= last {
      if k < |before| { assert before[k] <= cursor < rows[0]; }
      if |before| <= k < |all| - 1 { assert IntOrder()(rows[k - |before|], rows[|rows| - 1]); }
      if |rows| > 1 { assert IntOrder()(rows[0], rows[|rows| - 1]); }
    }
  }

  lemma PageReadInv(c: Config, s: State)
    requires Inv(c, s) && Enabled(s, ReadPage)
    ensures Inv(c, Next(c, s, ReadPage))
  {
    var s', cursor, rows := Next(c, s, ReadPage), s.phase.cursor, RowsPast(c, s.db, s.phase.cursor);
    PageFacts(IntOrder(), Missing(s.db), cursor, Limit(c));
    assert IsPage(IntOrder(), Missing(s.db), cursor, Limit(c), rows);
    if rows != [] {
      NotesAtRows(s.db, rows);
      forall k | 0 <= k < |rows| ensures cursor < rows[k] { assert IntOrder()(cursor, rows[k]); }
      AttemptsGrow(s.attempted, cursor, rows);
    }
    forall r | s'.ready && IsMissing(s'.db, r) && r !in s'.refused && r !in s'.unannounced ensures IsCovered(s', r) {
      assert IsCovered(s, r);
      if r > cursor { assert r in Missing(s.db) && IntOrder()(cursor, r); }
    }
  }

  lemma EmbeddingsFit(c: Config, page: seq<VectorlessNote>)
    ensures VectorsFit(c, page, Embeddings(c, page))
  {
  }

  predicate HasInHand(p: Phase, page: seq<VectorlessNote>) {
    match p
    case EmbeddingPage(pg) => pg == page
    case EmbeddingRows(pg, _) => pg == page
    case Writing(pg, _) => pg == page
    case _ => false
  }

  lemma SamePageInv(c: Config, s: State, p: Phase, page: seq<VectorlessNote>, rejected: set<int>)
    requires Inv(c, s) && HasInHand(s.phase, page) && HasInHand(p, page) && PhaseFits(c, s.db, p)
    requires s.rejected <= rejected && EmptySlotsRejected(p, rejected)
    ensures Inv(c, s.(phase := p, rejected := rejected))
  {
    assert forall r :: WillReach(p, r) <==> WillReach(s.phase, r);
  }

  lemma StoppedInv(c: Config, s: State, a: Answer)
    requires Inv(c, s) && CanAnswer(s, a)
    ensures a == NotReady ==> Inv(c, StoppedNotReady(s))
    ensures a == Busy ==> Inv(c, StoppedSaturated(s))
  {
  }

  lemma EmbeddedPageInv(c: Config, s: State, a: Answer)
    requires Inv(c, s) && Enabled(s, EmbedPage(a))
    ensures Inv(c, PageEmbedded(c, s, a))
  {
    StoppedInv(c, s, a);
    if a == Vectors {
      EmbeddingsFit(c, s.phase.page);
      SamePageInv(c, s, Writing(s.phase.page, Embeddings(c, s.phase.page)), s.phase.page, s.rejected);
    } else if a == Failed {
      SamePageInv(c, s, EmbeddingRows(s.phase.page, []), s.phase.page, s.rejected);
    }
  }

  lemma EmbeddedRowInv(c: Config, s: State, a: Answer)
    requires Inv(c, s) && Enabled(s, EmbedRow(a))
    ensures Inv(c, Next(c, s, EmbedRow(a)))
  {
    StoppedInv(c, s, a);
    var (page, out) := (s.phase.page, s.phase.out);
    if a == Vectors {
      SamePageInv(c, s, AfterRow(page, out + [Some(c.model(TextOf(page[|out|])))]), page, s.rejected);
    } else if a == Failed {
      SamePageInv(c, s, AfterRow(page, out + [None]), page, s.rejected + {page[|out|].rowid});
    }
  }

  lemma FilledConsistent(db: Db, page: seq<VectorlessNote>, out: seq<Option<Vector>>)
    requires Consistent(db) && |out| == |page| && RowsAscend(page)
    ensures Consistent(Filled(db, page, out))
  {
    FilledMeans(db, page, out);
    var db' := Filled(db, page, out);
    forall r | r in db'.embeddings ensures r in db'.notes {
      if r !in db.embeddings {
        var k :| 0 <= k < |page| && page[k].rowid == r && Lands(db, page, out, k);
      }
    }
  }

  lemma NewVectorsLanded(db: Db, page: seq<VectorlessNote>, out: seq<Option<Vector>>)
    requires |out| == |page| && RowsAscend(page)
    ensures Filled(db, page, out).embeddings.Keys - db.embeddings.Keys <= LandedIn(db, page, out)
  {
    FilledMeans(db, page, out);
    var db' := Filled(db, page, out);
    forall r | r in db'.embeddings && r !in db.embeddings ensures r in LandedIn(db, page, out) {
      var k :| 0 <= k < |page| && page[k].rowid == r && Lands(db, page, out, k);
    }
  }

  lemma FilledFit(c: Config, db: Db, page: seq<VectorlessNote>, out: seq<Option<Vector>>, written: set<int>)
    requires Consistent(db) && PageIsCurrent(db, page) && VectorsFit(c, page, out) && |out| == |page|
    requires WrittenFit(c, db, written)
    ensures WrittenFit(c, Filled(db, page, out), written + LandedIn(db, page, out))
  {
    FilledMeans(db, page, out);
    NewVectorsLanded(db, page, out);
    var db' := Filled(db, page, out);
    forall r | r in written + LandedIn(db, page, out) ensures r < db.nextId && IsFit(c, db', r) {
      if r in LandedIn(db, page, out) {
        var k :| 0 <= k < |page| && Lands(db, page, out, k) && page[k].rowid == r;
        assert IsCurrent(db, page[k]);
      } else {
        assert IsFit(c, db, r);
        assert r in db'.embeddings ==> r in db.embeddings;
      }
    }
  }

  /** A row of the page that still lacks a vector after the write-back was refused one. */
  lemma LeftoversRefused(db: Db, page: seq<VectorlessNote>, out: seq<Option<Vector>>, r: int)
    requires |out| == |page| && RowsAscend(page) && OnPage(page, r) && IsMissing(Filled(db, page, out), r)
    ensures r in RefusedIn(page, out)
  {
    FilledMeans(db, page, out);
    var k :| 0 <= k < |page| && page[k].rowid == r;
    assert !Lands(db, page, out, k);
  }

  lemma PageWrittenStrands(c: Config, s: State)
    requires Inv(c, s) && Enabled(s, WritePageBack)
    ensures NothingStranded(PageWritten(s))
  {
    var (page, out) := (s.phase.page, s.phase.out);
    var s' := PageWritten(s);
    FilledMeans(s.db, page, out);
    forall r | s'.ready && IsMissing(s'.db, r) && r !in s'.refused && r !in s'.unannounced ensures IsCovered(s', r) {
      assert IsMissing(s.db, r) && IsCovered(s, r);
      assert !OnPage(page, r) by {
        if OnPage(page, r) { LeftoversRefused(s.db, page, out, r); }
      }
    }
  }

  lemma PageWrittenInv(c: Config, s: State)
    requires Inv(c, s) && Enabled(s, WritePageBack)
    ensures Inv(c, Next(c, s, WritePageBack))
  {
    PageWrittenStrands(c, s);
    FilledConsistent(s.db, s.phase.page, s.phase.out);
    FilledFit(c, s.db, s.phase.page, s.phase.out, s.written);
  }

  /** Every step of every interleaving keeps the invariant. */
  lemma NextInv(c: Config, s: State, e: Event)
    requires Inv(c, s) && Enabled(s, e)
    ensures Inv(c, Next(c, s, e))
  {
    match e
    case Request(op) =>
      AppliedConsistent(s.db, op);
      AppliedExtends(s.db, op);
      RequestedInv(c, s, Applied(s.db, op), RaisesFor(s.db, op));
    case Batch(project, entries) =>
      var out := Push(s.db, project, entries);
      PushGrows(s.db, project, entries);
      RequestedInv(c, s, out.db, BatchRaises(out));
    case PayRaise => RaisedInv(c, s, e);
    case BecomeReady => ReadinessInv(c, s, e);
    case BecomeUnavailable => ReadinessInv(c, s, e);
    case Wake => WokenInv(c, s);
    case ReadPage => PageReadInv(c, s);
    case EmbedPage(a) => EmbeddedPageInv(c, s, a);
    case EmbedRow(a) => EmbeddedRowInv(c, s, a);
    case WritePageBack => PageWrittenInv(c, s);
    case RaiseAgain => RaisedInv(c, s, e);
  }

  // --------------------------------------------------------------- whole runs

  ghost predicate IsRun(c: Config, s: State, es: seq<Event>)
    decreases |es|
  {
    es == [] || (Enabled(s, es[0]) && IsRun(c, Next(c, s, es[0]), es[1..]))
  }

  ghost function Ran(c: Config, s: State, es: seq<Event>): State
    requires IsRun(c, s, es)
    decreases |es|
  {
    if es == [] then s else Ran(c, Next(c, s, es[0]), es[1..])
  }

  /** Some interleaving leads from `s` to `s'`. */
  ghost predicate Reaches(c: Config, s: State, s': State) { exists es :: IsRun(c, s, es) && Ran(c, s, es) == s' }

  lemma ReachesSelf(c: Config, s: State)
    ensures Reaches(c, s, s)
  {
    assert IsRun(c, s, []) && Ran(c, s, []) == s;
  }

  lemma ReachesNext(c: Config, s: State, e: Event)
    requires Enabled(s, e)
    ensures Reaches(c, s, Next(c, s, e))
  {
    assert IsRun(c, Next(c, s, e), []);
    assert [e][1..] == [];
    assert IsRun(c, s, [e]) && Ran(c, s, [e]) == Next(c, s, e);
  }

  lemma {:induction false} RunsJoin(c: Config, s: State, first: seq<Event>, second: seq<Event>)
    requires IsRun(c, s, first) && IsRun(c, Ran(c, s, first), second)
    ensures IsRun(c, s, first + second) && Ran(c, s, first + second) == Ran(c, Ran(c, s, first), second)
    decreases |first|
  {
    if first == [] {
      assert first + second == second;
    } else {
      assert (first + second)[0] == first[0] && (first + second)[1..] == first[1..] + second;
      RunsJoin(c, Next(c, s, first[0]), first[1..], second);
    }
  }

  lemma ReachesOn(c: Config, a: State, b: State, d: State)
    requires Reaches(c, a, b) && Reaches(c, b, d)
    ensures Reaches(c, a, d)
  {
    var es :| IsRun(c, a, es) && Ran(c, a, es) == b;
    var fs :| IsRun(c, b, fs) && Ran(c, b, fs) == d;
    RunsJoin(c, a, es, fs);
  }

  lemma ReachesInv(c: Config, s: State, s': State)
    requires Inv(c, s) && Reaches(c, s, s')
    ensures Inv(c, s')
  {
    var es :| IsRun(c, s, es) && Ran(c, s, es) == s';
    RunKeepsInv(c, s, es);
  }

  lemma {:induction false} RunKeepsInv(c: Config, s: State, es: seq<Event>)
    requires Inv(c, s) && IsRun(c, s, es)
    ensures Inv(c, Ran(c, s, es))
    decreases |es|
  {
    if es != [] {
      NextInv(c, s, es[0]);
      RunKeepsInv(c, Next(c, s, es[0]), es[1..]);
    }
  }

  predicate IsQuiet(s: State) { s.phase.Parked? && !s.permit && s.owed == 0 }

  /**
   * From any consistent store, however requests, raises and sweeps interleave:
   * nothing is stranded; and once the worker is parked with no raise pending and
   * the embedder is ready, the only vectorless active rows are those the last
   * sweep was refused, each in a call of its own, and those a request that does
   * not raise left since.
   */
  lemma NoStrandedBacklog(c: Config, db: Db, es: seq<Event>)
    requires Consistent(db) && IsRun(c, Start(db), es)
    ensures var s := Ran(c, Start(db), es);
            && NothingStranded(s) && SweepsPaidFor(s) && s.refused <= s.rejected
            && (IsQuiet(s) && s.ready ==> Missing(s.db) <= s.refused + s.unannounced)
  {
    StartInv(c, db);
    RunKeepsInv(c, Start(db), es);
    var s := Ran(c, Start(db), es);
    if IsQuiet(s) && s.ready {
      forall r | r in Missing(s.db) ensures r in s.refused + s.unannounced {
        assert IsMissing(s.db, r) && !IsCovered(s, r);
      }
    }
  }

  /**
   * Safety of every run: vectors belong to notes, a sweep's vectors fit their rows, no
   * row is read twice, the figures add up.
   */
  lemma RepairIsSafe(c: Config, db: Db, es: seq<Event>)
    requires Consistent(db) && IsRun(c, Start(db), es)
    ensures var s := Ran(c, Start(db), es);
            && s.db.embeddings.Keys <= s.db.notes.Keys
            && (forall r :: r in s.written && r in s.db.embeddings ==>
                  r in s.db.notes &&
                  s.db.embeddings[r] == c.model("title: " + s.db.notes[r].title + " | text: " + s.db.notes[r].body))
            && (forall i, j :: 0 <= i < j < |s.attempted| ==> s.attempted[i] < s.attempted[j])
            && s.stats.scanned == s.stats.repaired + s.stats.failed + s.passed
  {
    StartInv(c, db);
    RunKeepsInv(c, Start(db), es);
    var s := Ran(c, Start(db), es);
    forall r | r in s.written && r in s.db.embeddings
      ensures r in s.db.notes && s.db.embeddings[r] == c.model(StorageText(s.db.notes[r].title, s.db.notes[r].body))
    {
      assert IsFit(c, s.db, r);
    }
    forall i, j | 0 <= i < j < |s.attempted| ensures s.attempted[i] < s.attempted[j] {
      assert IntOrder()(s.attempted[i], s.attempted[j]);
    }
  }

  // ------------------------------------------- what goes without being announced

  predicate Strips(db: Db, op: Op, r: int) {
    op.Delete? && IsRow(db, op.project, op.id, r) && db.notes[r].active && r in db.embeddings && IsReferenced(db, r)
  }

  predicate IsStripping(db: Db, op: Op) { exists r :: r in db.notes && Strips(db, op, r) }

  lemma NewlyMissingRow(db: Db, op: Op, r: int)
    requires Consistent(db) && IsAllowed(op)
    ensures r in NewlyMissing(db, Applied(db, op)) <==> (RaisesFor(db, op) && r == db.nextId) || Strips(db, op, r)
  {
    var after := Applied(db, op);
    assert r in NewlyMissing(db, after) <==> IsMissing(after, r) && !IsMissing(db, r);
    if r < db.nextId {
      WhoLosesVectors(db, op, r);
    } else {
      assert r !in db.notes && r !in db.embeddings;
    }
  }

  lemma NewlyMissingBy(db: Db, op: Op)
    requires Consistent(db) && IsAllowed(op)
    ensures NewlyMissing(db, Applied(db, op)) != {} <==> RaisesFor(db, op) || IsStripping(db, op)
    ensures |NewlyMissing(db, Applied(db, op))| <= 1
  {
    var added := NewlyMissing(db, Applied(db, op));
    var row := if IsStripping(db, op) then StrippedRow(db, op) else db.nextId;
    forall r ensures r in added <==> r == row && (RaisesFor(db, op) || IsStripping(db, op)) {
      NewlyMissingRow(db, op, r);
      if Strips(db, op, r) { assert IsStripping(db, op); }
    }
    AtMostOne(added, row);
    assert row in added <==> RaisesFor(db, op) || IsStripping(db, op);
  }

  /** A stripping delete takes the vector of one row and adds none. */
  ghost function StrippedRow(db: Db, op: Op): (row: int)
    requires Consistent(db) && IsStripping(db, op)
    ensures Strips(db, op, row) && !RaisesFor(db, op)
    ensures forall r :: Strips(db, op, r) ==> r == row
  {
    var r :| r in db.notes && Strips(db, op, r);
    r
  }

  /**
   * Exactly which requests leave a row waiting for a vector without asking for a
   * sweep: deleting an embedded, active note that another was superseded by, and
   * a batch cut short after it stored an entry without a vector.
   */
  lemma WhatGoesUnannounced(c: Config, s: State, e: Event)
    requires Inv(c, s) && Enabled(s, e) && (e.Request? || e.Batch?)
    ensures var s' := Next(c, s, e);
            NewlyMissing(s.db, s'.db) != {} && s'.owed == s.owed
            <==> if e.Request? then IsStripping(s.db, e.op)
                 else WillStrand(LiveIds(s.db, e.project), KnownIds(s.db, e.project), TakenIds(s.db), e.entries)
  {
    match e
    case Request(op) => NewlyMissingBy(s.db, op);
    case Batch(project, entries) =>
      PushBacklog(s.db, project, entries);
      PushStrandsIff(s.db, project, entries);
  }
}
