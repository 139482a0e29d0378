/**
 * What a poisoned text costs: a sweep nobody disturbs, over an embedder that
 * refuses some texts, gives every other row past its cursor a vector and counts
 * exactly the refused ones as failed.
 */
module RepairRefusals {
  import opened Wrappers
  import opened NoteStore
  import opened WriteBack
  import opened Pages
  import opened Sets
  import opened Repair
  import opened RepairProgress
  import opened RepairScript

  /**
   * Around one page nothing else happens and a permit is free. The page's own call
   * may fail for any reason, and does if one of its texts is poison; a row's own
   * call fails exactly for a poisoned text.
   */
  predicate Serves(turn: PageTurn, page: seq<VectorlessNote>, poison: string -> bool) {
    && turn.beforeRead == [] && turn.beforeWrite == [] && turn.page.admitted && turn.page.during == []
    && (turn.page.works ==> forall k :: 0 <= k < |page| ==> !poison(TextOf(page[k])))
    && (!turn.page.works ==> |turn.rows| == |page| && forall k :: 0 <= k < |page| ==>
          turn.rows[k] == EmbedTurn(true, [], !poison(TextOf(page[k]))))
  }

  /** The same of every page of a sweep. */
  ghost predicate AllServe(c: Config, s: State, turns: seq<PageTurn>, poison: string -> bool)
    requires Inv(c, s) && s.phase.Reading? && IsScript(turns)
    decreases |turns|, Work(s)
  {
    var rows := RowsPast(c, s.db, s.phase.cursor);
    FirstTurn(turns).beforeRead == [] &&
    if rows == [] then true
    else if !Serves(FirstTurn(turns), NotesAt(s.db, rows), poison) then false
    else if !RoundThrough(c, s, FirstTurn(turns)).phase.Reading? then true
    else
      RoundGoesOn(c, s, turns);
      AllServe(c, RoundThrough(c, s, FirstTurn(turns)), LaterTurns(turns), poison)
  }

  /** What such a page comes to: a row's own vector, or nothing for a poisoned text. */
  function Outcomes(c: Config, page: seq<VectorlessNote>, poison: string -> bool): (out: seq<Option<Vector>>)
    ensures |out| == |page|
    ensures forall k :: 0 <= k < |page| ==>
              out[k] == if poison(TextOf(page[k])) then None else Some(c.model(TextOf(page[k])))
  {
    seq(|page|, k requires 0 <= k < |page| => if poison(TextOf(page[k])) then None else Some(c.model(TextOf(page[k]))))
  }

  // ------------------------------------------------------------ one page

  lemma {:induction false} RowsServed(c: Config, s: State, turn: PageTurn, poison: string -> bool)
    requires Inv(c, s) && s.phase.EmbeddingRows? && s.ready && IsTurn(turn)
    requires !turn.page.works && Serves(turn, s.phase.page, poison)
    requires s.phase.out == Outcomes(c, s.phase.page, poison)[..|s.phase.out|]
    ensures var s' := RowsThrough(c, s, turn.rows);
            s'.phase == Writing(s.phase.page, Outcomes(c, s.phase.page, poison)) && SameStore(s, s')
    decreases |s.phase.page| - |s.phase.out|
  {
    var (page, out) := (s.phase.page, s.phase.out);
    var all, k := Outcomes(c, page, poison), |out|;
    var a := AnswerTo(s, EmbedTurnAt(turn.rows, k));
    assert all[..k + 1] == all[..k] + [all[k]];
    var s2 := Next(c, s, EmbedRow(a));
    NextInv(c, s, EmbedRow(a));
    assert s2.phase == AfterRow(page, all[..k + 1]);
    if k + 1 < |page| { RowsServed(c, s2, turn, poison); } else { assert all[..k + 1] == all; }
  }

  /** The store, the embedder and the figures are as they were. */
  predicate SameStore(s: State, s': State) { s'.db == s.db && s'.ready == s.ready && s'.stats == s.stats }

  lemma PageServed(c: Config, s: State, turn: PageTurn, poison: string -> bool)
    requires Inv(c, s) && s.phase.EmbeddingPage? && s.ready && IsTurn(turn) && Serves(turn, s.phase.page, poison)
    ensures var s' := EmbedThrough(c, s, turn);
            s'.phase == Writing(s.phase.page, Outcomes(c, s.phase.page, poison)) && SameStore(s, s')
  {
    var page := s.phase.page;
    var a := AnswerTo(s, turn.page);
    NextInv(c, s, EmbedPage(a));
    if turn.page.works {
      assert Embeddings(c, page) == Outcomes(c, page, poison);
    } else {
      assert Outcomes(c, page, poison)[..0] == [];
      RowsServed(c, PageEmbedded(c, s, a), turn, poison);
    }
  }

  /** The rows among `rows` whose text is poison. */
  ghost function Poisoned(db: Db, rows: set<int>, poison: string -> bool): set<int> {
    set r | r in rows && poison(TextOf(NoteAt(db, r)))
  }

  /** Of these rows the poisoned ones are left without a vector, and everything is counted once. */
  ghost predicate RepairedBut(s: State, rows: set<int>, poison: string -> bool, s': State) {
    var bad := Poisoned(s.db, rows, poison);
    && Missing(s'.db) == Missing(s.db) - (rows - bad)
    && s'.db.notes == s.db.notes && s'.ready == s.ready
    && s'.stats == s.stats.(scanned := s.stats.scanned + |rows|, repaired := s.stats.repaired + |rows - bad|,
                            failed := s.stats.failed + |bad|)
  }

  lemma RowsOfPage(db: Db, rows: seq<int>, out: seq<Option<Vector>>, c: Config, poison: string -> bool)
    requires Consistent(db) && Ascending(IntOrder(), rows) && rows != []
    requires (forall k :: 0 <= k < |rows| ==> rows[k] in Missing(db))
    requires out == Outcomes(c, NotesAt(db, rows), poison)
    ensures RowsAscend(NotesAt(db, rows)) && |rows| == |ToSet(rows)|
    ensures RefusedIn(NotesAt(db, rows), out) == Poisoned(db, ToSet(rows), poison)
    ensures LandedIn(db, NotesAt(db, rows), out) == ToSet(rows) - Poisoned(db, ToSet(rows), poison)
  {
    var page := NotesAt(db, rows);
    NotesAtRows(db, rows);
    AscendingCount(IntOrder(), rows);
    forall r | r in ToSet(rows)
      ensures r in RefusedIn(page, out) <==> poison(TextOf(NoteAt(db, r)))
      ensures r in LandedIn(db, page, out) <==> !poison(TextOf(NoteAt(db, r)))
    {
      var k :| 0 <= k < |rows| && rows[k] == r;
      assert page[k] == NoteAt(db, r) && page[k].rowid == r;
      OnlySlot(db, page, out, k);
    }
    assert forall r :: r in RefusedIn(page, out) || r in LandedIn(db, page, out) ==> r in ToSet(rows);
  }

  lemma OnlySlot(db: Db, page: seq<VectorlessNote>, out: seq<Option<Vector>>, k: nat)
    requires RowsAscend(page) && |out| == |page| && k < |page| && IsMissing(db, page[k].rowid)
    ensures page[k].rowid in RefusedIn(page, out) <==> out[k].None?
    ensures page[k].rowid in LandedIn(db, page, out) <==> out[k].Some?
  {
    forall j | 0 <= j < |page| && page[j].rowid == page[k].rowid ensures j == k {
    }
    assert out[k].Some? ==> Lands(db, page, out, k);
  }

  /** The page's own figures, and what it leaves in the store. */
  lemma PageCounts(c: Config, db: Db, rows: seq<int>, poison: string -> bool, out: seq<Option<Vector>>)
    requires Consistent(db) && Ascending(IntOrder(), rows) && rows != []
    requires forall k :: 0 <= k < |rows| ==> rows[k] in Missing(db)
    requires out == Outcomes(c, NotesAt(db, rows), poison)
    ensures var t, bad := Tallied(db, NotesAt(db, rows), out), Poisoned(db, ToSet(rows), poison);
            t.repaired == |ToSet(rows) - bad| && t.failed == |bad|
  {
    RowsOfPage(db, rows, out, c, poison);
    TallyCounts(db, NotesAt(db, rows), out);
  }

  lemma PageLeaves(c: Config, db: Db, rows: seq<int>, poison: string -> bool, out: seq<Option<Vector>>)
    requires Consistent(db) && Ascending(IntOrder(), rows) && rows != []
    requires forall k :: 0 <= k < |rows| ==> rows[k] in Missing(db)
    requires out == Outcomes(c, NotesAt(db, rows), poison)
    ensures var db' := Filled(db, NotesAt(db, rows), out);
            && Missing(db') == Missing(db) - (ToSet(rows) - Poisoned(db, ToSet(rows), poison))
            && db'.notes == db.notes
    ensures |rows| == |ToSet(rows)| && Last(NotesAt(db, rows)) == rows[|rows| - 1]
  {
    RowsOfPage(db, rows, out, c, poison);
    LandedLeaves(db, NotesAt(db, rows), out);
    FilledNotes(db, NotesAt(db, rows), out);
  }

  lemma FilledNotes(db: Db, page: seq<VectorlessNote>, out: seq<Option<Vector>>)
    requires |out| == |page| && RowsAscend(page)
    ensures Filled(db, page, out).notes == db.notes
  {
    FilledMeans(db, page, out);
  }

  lemma WrittenServed(c: Config, s: State, rows: seq<int>, poison: string -> bool)
    requires Consistent(s.db) && Ascending(IntOrder(), rows) && rows != []
    requires forall k :: 0 <= k < |rows| ==> rows[k] in Missing(s.db)
    requires s.phase == Writing(NotesAt(s.db, rows), Outcomes(c, NotesAt(s.db, rows), poison))
    ensures PageWritten(s).phase == Reading(rows[|rows| - 1]) && RepairedBut(s, ToSet(rows), poison, PageWritten(s))
  {
    PageCounts(c, s.db, rows, poison, s.phase.out);
    PageLeaves(c, s.db, rows, poison, s.phase.out);
    WrittenFigures(s);
  }

  lemma WrittenFigures(s: State)
    requires s.phase.Writing? && |s.phase.out| == |s.phase.page|
    ensures var (page, out, s') := (s.phase.page, s.phase.out, PageWritten(s));
            var t := Tallied(s.db, page, out);
            && s'.db == Filled(s.db, page, out) && s'.phase == Reading(Last(page)) && s'.ready == s.ready
            && s'.stats == s.stats.(scanned := s.stats.scanned + |page|, repaired := s.stats.repaired + t.repaired,
                                    failed := s.stats.failed + t.failed)
  {
  }

  lemma RoundServed(c: Config, s: State, turn: PageTurn, poison: string -> bool)
    requires Inv(c, s) && s.phase.Reading? && s.ready && IsTurn(turn)
    requires RowsPast(c, s.db, s.phase.cursor) != []
    requires Serves(turn, NotesAt(s.db, RowsPast(c, s.db, s.phase.cursor)), poison)
    ensures var rows, s' := RowsPast(c, s.db, s.phase.cursor), RoundThrough(c, s, turn);
            s'.phase == Reading(rows[|rows| - 1]) && RepairedBut(s, ToSet(rows), poison, s')
  {
    var rows := RowsPast(c, s.db, s.phase.cursor);
    RowsPastFacts(c, s.db, s.phase.cursor);
    var read := ReadThrough(c, s, turn.beforeRead);
    assert read == PageRead(c, s) && read.phase == EmbeddingPage(NotesAt(s.db, rows));
    PageServed(c, read, turn, poison);
    var done := EmbedThrough(c, read, turn);
    assert WriteThrough(c, done, turn.beforeWrite) == PageWritten(done);
    WrittenServed(c, done, rows, poison);
    assert RoundThrough(c, s, turn) == PageWritten(done);
    SameBut(s, done, ToSet(rows), poison, PageWritten(done));
  }

  lemma SameBut(s: State, t: State, rows: set<int>, poison: string -> bool, s': State)
    requires SameStore(s, t) && RepairedBut(t, rows, poison, s')
    ensures RepairedBut(s, rows, poison, s')
  {
  }

  // ------------------------------------------------------------ the sweep

  lemma PoisonedSplit(db: Db, db': Db, first: set<int>, later: set<int>, poison: string -> bool)
    requires db'.notes == db.notes && first !! later
    ensures Poisoned(db, first + later, poison) == Poisoned(db, first, poison) + Poisoned(db', later, poison)
    ensures |Poisoned(db, first + later, poison)| == |Poisoned(db, first, poison)| + |Poisoned(db', later, poison)|
    ensures |first + later| == |first| + |later|
    ensures var bad := Poisoned(db, first + later, poison);
            |(first + later) - bad| == |first - Poisoned(db, first, poison)| + |later - Poisoned(db', later, poison)|
  {
    var a, b := Poisoned(db, first, poison), Poisoned(db', later, poison);
    assert forall r :: NoteAt(db, r) == NoteAt(db', r);
    assert Poisoned(db, first + later, poison) == a + b;
    assert (first + later) - (a + b) == (first - a) + (later - b);
  }

  lemma RepairedOn(s: State, first: set<int>, s1: State, later: set<int>, s2: State, poison: string -> bool)
    requires RepairedBut(s, first, poison, s1) && RepairedBut(s1, later, poison, s2) && first !! later
    ensures RepairedBut(s, first + later, poison, s2)
  {
    PoisonedSplit(s.db, s1.db, first, later, poison);
    var a, b := Poisoned(s.db, first, poison), Poisoned(s1.db, later, poison);
    RemoveTwice(Missing(s.db), first, later, a, b);
  }

  lemma RemoveTwice(all: set<int>, first: set<int>, later: set<int>, a: set<int>, b: set<int>)
    requires first !! later && a <= first && b <= later
    ensures (all - (first - a)) - (later - b) == all - ((first + later) - (a + b))
  {
  }

  lemma PageThenRest(db: Db, db': Db, cursor: int, rows: seq<int>, bad: set<int>)
    requires rows != [] && Ascending(IntOrder(), rows) && Missing(db') == Missing(db) - (ToSet(rows) - bad)
    requires forall k :: 0 <= k < |rows| ==> rows[k] in Missing(db) && cursor < rows[k]
    requires forall r :: r in Missing(db) && cursor < r && r <= rows[|rows| - 1] ==> r in rows
    ensures var later := After(IntOrder(), Missing(db'), rows[|rows| - 1]);
            After(IntOrder(), Missing(db), cursor) == ToSet(rows) + later && ToSet(rows) !! later
  {
    var last := rows[|rows| - 1];
    forall r | r in rows ensures cursor < r <= last && r in Missing(db) {
      var i :| 0 <= i < |rows| && rows[i] == r;
      assert i < |rows| - 1 ==> IntOrder()(rows[i], last);
    }
  }

  lemma ParksAtOnce(c: Config, s: State, turns: seq<PageTurn>, poison: string -> bool)
    requires Inv(c, s) && s.phase.Reading? && IsScript(turns) && FirstTurn(turns).beforeRead == []
    requires RowsPast(c, s.db, s.phase.cursor) == [] && After(IntOrder(), Missing(s.db), s.phase.cursor) == {}
    ensures SweepThrough(c, s, turns) == s.(phase := Parked)
    ensures RepairedBut(s, {}, poison, s.(phase := Parked))
  {
  }

  lemma RoundThenRest(c: Config, s: State, s1: State, s2: State, poison: string -> bool)
    requires s.phase.Reading? && RowsPast(c, s.db, s.phase.cursor) != []
    requires RepairedBut(s, ToSet(RowsPast(c, s.db, s.phase.cursor)), poison, s1)
    requires s1.phase == Reading(RowsPast(c, s.db, s.phase.cursor)[|RowsPast(c, s.db, s.phase.cursor)| - 1])
    requires RepairedBut(s1, After(IntOrder(), Missing(s1.db), s1.phase.cursor), poison, s2)
    ensures RepairedBut(s, After(IntOrder(), Missing(s.db), s.phase.cursor), poison, s2)
  {
    var cursor, rows := s.phase.cursor, RowsPast(c, s.db, s.phase.cursor);
    PastSplits(c, s.db, s1.db, cursor, Poisoned(s.db, ToSet(rows), poison));
    RepairedOn(s, ToSet(rows), s1, After(IntOrder(), Missing(s1.db), s1.phase.cursor), s2, poison);
  }

  lemma PastSplits(c: Config, db: Db, db': Db, cursor: int, bad: set<int>)
    requires RowsPast(c, db, cursor) != []
    requires Missing(db') == Missing(db) - (ToSet(RowsPast(c, db, cursor)) - bad)
    ensures var rows := RowsPast(c, db, cursor);
            var later := After(IntOrder(), Missing(db'), rows[|rows| - 1]);
            After(IntOrder(), Missing(db), cursor) == ToSet(rows) + later && ToSet(rows) !! later
  {
    RowsPastFacts(c, db, cursor);
    PageThenRest(db, db', cursor, RowsPast(c, db, cursor), bad);
  }

  lemma ServingOn(c: Config, s: State, turns: seq<PageTurn>, poison: string -> bool)
    requires Inv(c, s) && s.phase.Reading? && s.ready && IsScript(turns) && AllServe(c, s, turns, poison)
    requires RowsPast(c, s.db, s.phase.cursor) != []
    ensures var rows, s1 := RowsPast(c, s.db, s.phase.cursor), RoundThrough(c, s, FirstTurn(turns));
            && s1.phase == Reading(rows[|rows| - 1]) && RepairedBut(s, ToSet(rows), poison, s1)
            && Inv(c, s1) && AllServe(c, s1, LaterTurns(turns), poison)
  {
    RoundServed(c, s, FirstTurn(turns), poison);
  }

  lemma NothingPast(c: Config, s: State)
    requires s.phase.Reading? && RowsPast(c, s.db, s.phase.cursor) == []
    ensures After(IntOrder(), Missing(s.db), s.phase.cursor) == {}
  {
    RowsPastFacts(c, s.db, s.phase.cursor);
  }

  /**
   * An undisturbed sweep whose embedder refuses exactly the poisoned texts leaves
   * exactly the rows of those without a vector, counts each of them once as failed
   * and every other row past the cursor once as repaired, and parks.
   */
  lemma {:induction false} PoisonedSweep(c: Config, s: State, turns: seq<PageTurn>, poison: string -> bool)
    requires Inv(c, s) && s.phase.Reading? && s.ready && IsScript(turns) && AllServe(c, s, turns, poison)
    ensures var s' := SweepThrough(c, s, turns);
            s'.phase == Parked && RepairedBut(s, After(IntOrder(), Missing(s.db), s.phase.cursor), poison, s')
    decreases |turns|, Work(s)
  {
    if RowsPast(c, s.db, s.phase.cursor) == [] {
      NothingPast(c, s);
      ParksAtOnce(c, s, turns, poison);
    } else {
      var s1 := RoundThrough(c, s, FirstTurn(turns));
      ServingOn(c, s, turns, poison);
      SweepGoesOn(c, s, turns);
      PoisonedSweep(c, s1, LaterTurns(turns), poison);
      RoundThenRest(c, s, s1, SweepThrough(c, s1, LaterTurns(turns)), poison);
    }
  }

  lemma SweepGoesOn(c: Config, s: State, turns: seq<PageTurn>)
    requires Inv(c, s) && s.phase.Reading? && IsScript(turns) && RoundThrough(c, s, FirstTurn(turns)).phase.Reading?
    ensures turns == [] ==> 0 <= Work(RoundThrough(c, s, FirstTurn(turns))) < Work(s)
    ensures SweepThrough(c, s, turns) == SweepThrough(c, RoundThrough(c, s, FirstTurn(turns)), LaterTurns(turns))
  {
    RoundGoesOn(c, s, turns);
  }

  /** A sweep from the first row: what is left without a vector is what is poisoned, and that is what failed. */
  lemma PoisonedSweepFromStart(c: Config, s: State, turns: seq<PageTurn>, poison: string -> bool)
    requires Inv(c, s) && s.phase == Reading(0) && s.stats == NO_STATS && s.ready
    requires IsScript(turns) && AllServe(c, s, turns, poison)
    ensures var s', bad := SweepThrough(c, s, turns), Poisoned(s.db, Missing(s.db), poison);
            && s'.phase == Parked && Missing(s'.db) == bad
            && s'.stats == Stats(|Missing(s.db)|, |Missing(s.db) - bad|, |bad|, false, false)
  {
    PoisonedSweep(c, s, turns, poison);
    AllAreAhead(s.db);
    AllRepairedBut(s, poison, SweepThrough(c, s, turns));
  }

  lemma AllRepairedBut(s: State, poison: string -> bool, s': State)
    requires RepairedBut(s, Missing(s.db), poison, s') && s.stats == NO_STATS
    ensures var bad := Poisoned(s.db, Missing(s.db), poison);
            Missing(s'.db) == bad && s'.stats == Stats(|Missing(s.db)|, |Missing(s.db) - bad|, |bad|, false, false)
  {
    var bad := Poisoned(s.db, Missing(s.db), poison);
    assert Missing(s.db) - (Missing(s.db) - bad) == bad;
  }

  // ------------------------------------------------- there is such a script

  /** One page's turn: its own call fails if a text is poison, and so does each poisoned row's. */
  function TurnFor(page: seq<VectorlessNote>, poison: string -> bool): (turn: PageTurn)
    ensures IsTurn(turn) && Serves(turn, page, poison)
  {
    var rows := seq(|page|, k requires 0 <= k < |page| => EmbedTurn(true, [], !poison(TextOf(page[k]))));
    PageTurn([], EmbedTurn(true, [], forall k :: 0 <= k < |page| ==> !poison(TextOf(page[k]))), rows, [])
  }

  lemma AheadShrinks(c: Config, db: Db, db': Db, cursor: int, bad: set<int>)
    requires RowsPast(c, db, cursor) != []
    requires Missing(db') == Missing(db) - (ToSet(RowsPast(c, db, cursor)) - bad)
    ensures var rows := RowsPast(c, db, cursor); Ahead(db', rows[|rows| - 1]) < Ahead(db, cursor)
  {
    var rows := RowsPast(c, db, cursor);
    PastSplits(c, db, db', cursor, bad);
    assert rows[0] in ToSet(rows);
  }

  lemma ShrinksBy(c: Config, s: State, s': State, poison: string -> bool)
    requires s.phase.Reading? && RowsPast(c, s.db, s.phase.cursor) != []
    requires s'.phase == Reading(RowsPast(c, s.db, s.phase.cursor)[|RowsPast(c, s.db, s.phase.cursor)| - 1])
    requires RepairedBut(s, ToSet(RowsPast(c, s.db, s.phase.cursor)), poison, s')
    ensures Ahead(s'.db, s'.phase.cursor) < Ahead(s.db, s.phase.cursor)
  {
    AheadShrinks(c, s.db, s'.db, s.phase.cursor, Poisoned(s.db, ToSet(RowsPast(c, s.db, s.phase.cursor)), poison));
  }

  lemma RoundShrinks(c: Config, s: State, turn: PageTurn, poison: string -> bool)
    requires Inv(c, s) && s.phase.Reading? && s.ready && RowsPast(c, s.db, s.phase.cursor) != []
    requires IsTurn(turn) && Serves(turn, NotesAt(s.db, RowsPast(c, s.db, s.phase.cursor)), poison)
    ensures var s' := RoundThrough(c, s, turn);
            s'.phase.Reading? && s'.ready && Ahead(s'.db, s'.phase.cursor) < Ahead(s.db, s.phase.cursor)
  {
    RoundServed(c, s, turn, poison);
    ShrinksBy(c, s, RoundThrough(c, s, turn), poison);
  }

  /** The next round when the embedder refuses the poisoned texts, and the turn that makes it so. */
  ghost function ServedRound(c: Config, s: State, poison: string -> bool): (r: (PageTurn, State))
    requires Inv(c, s) && s.phase.Reading? && s.ready && RowsPast(c, s.db, s.phase.cursor) != []
    ensures IsTurn(r.0) && Serves(r.0, NotesAt(s.db, RowsPast(c, s.db, s.phase.cursor)), poison)
    ensures r.1 == RoundThrough(c, s, r.0) && Inv(c, r.1) && r.1.phase.Reading? && r.1.ready
    ensures Ahead(r.1.db, r.1.phase.cursor) < Ahead(s.db, s.phase.cursor)
  {
    var turn := TurnFor(NotesAt(s.db, RowsPast(c, s.db, s.phase.cursor)), poison);
    RoundShrinks(c, s, turn, poison);
    (turn, RoundThrough(c, s, turn))
  }

  lemma ScriptGrows(turn: PageTurn, turns: seq<PageTurn>)
    requires IsTurn(turn) && IsScript(turns)
    ensures IsScript([turn] + turns)
  {
  }

  ghost function TurnsFor(c: Config, s: State, poison: string -> bool): (turns: seq<PageTurn>)
    requires Inv(c, s) && s.phase.Reading? && s.ready
    ensures IsScript(turns)
    decreases Ahead(s.db, s.phase.cursor)
  {
    if RowsPast(c, s.db, s.phase.cursor) == [] then []
    else
      var r := ServedRound(c, s, poison);
      var rest := TurnsFor(c, r.1, poison);
      ScriptGrows(r.0, rest);
      [r.0] + rest
  }

  /** Whatever is poison, some script serves the sweep so. */
  lemma {:induction false} SomeScriptServes(c: Config, s: State, poison: string -> bool)
    requires Inv(c, s) && s.phase.Reading? && s.ready
    ensures AllServe(c, s, TurnsFor(c, s, poison), poison)
    decreases Ahead(s.db, s.phase.cursor)
  {
    if RowsPast(c, s.db, s.phase.cursor) != [] {
      var (turn, s') := ServedRound(c, s, poison);
      SomeScriptServes(c, s', poison);
      assert TurnsFor(c, s, poison)[1..] == TurnsFor(c, s', poison);
    }
  }
}
