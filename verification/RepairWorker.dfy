/**
 * The repair worker as it runs: `run_repair_worker`'s loop body, the sweep and
 * the page embed with its row-by-row fallback, over the live store. What other
 * tasks do at each await is given as a script, and each method is proved to end
 * exactly where the step system does under that script.
 */
module RepairWorker {
  import opened Wrappers
  import opened NoteStore
  import opened WriteBack
  import opened Pages
  import opened BatchPush
  import opened Repair
  import opened RepairProgress
  import opened RepairScript

  /** `Notify` with its one permit. */
  class RepairSignal {
    var permit: bool

    constructor ()
      ensures !permit
    {
      permit := false;
    }

    method Raise()
      modifies this
      ensures permit
    {
      permit := true;
    }

    /** `wait` once it returns: the permit is used up. */
    method Wait()
      requires permit
      modifies this
      ensures !permit
    {
      permit := false;
    }
  }

  /** What the requests and the worker share; `owed` is the requests that have stored a row and not yet raised. */
  class Server {
    const store: ServerDb
    const signal: RepairSignal
    var ready: bool
    var owed: nat

    constructor (store: ServerDb)
      ensures this.store == store && fresh(signal) && !signal.permit && !ready && owed == 0
    {
      this.store := store;
      signal := new RepairSignal();
      ready, owed := false, 0;
    }

    /** The shared part of `s` is what is really there. */
    ghost predicate Tracks(s: State)
      reads this, store, signal
    {
      store.State() == s.db && signal.permit == s.permit && ready == s.ready && owed == s.owed
    }

    /** A step of some other task; one that cannot happen now does not. */
    method Other(c: Config, e: Event, ghost s: State)
      requires Inv(c, s) && Tracks(s) && IsOther(e)
      modifies this, store, signal
      ensures Tracks(OtherStep(c, s, e))
    {
      match e
      case Request(op) =>
        var raises := RaisesFor(Db(store.notes, store.embeddings, store.nextId), op);
        store.Apply(op);
        if raises { owed := owed + 1; }
      case Batch(project, entries) =>
        var _, _, raises := PushMemoryBatch(store, project, entries);
        if raises { owed := owed + 1; }
      case PayRaise =>
        if owed > 0 {
          signal.Raise();
          owed := owed - 1;
        }
      case BecomeReady =>
        ready := true;
        owed := owed + 1;
      case BecomeUnavailable =>
        ready := false;
    }

    method Others(c: Config, es: seq<Event>, ghost s: State)
      requires Inv(c, s) && Tracks(s) && AllOthers(es)
      modifies this, store, signal
      ensures Tracks(OtherSteps(c, s, es))
    {
      var left := es;
      ghost var now := s;
      while left != []
        invariant Inv(c, now) && Tracks(now) && AllOthers(left) && OtherSteps(c, now, left) == OtherSteps(c, s, es)
        decreases |left|
      {
        Other(c, left[0], now);
        now := OtherStep(c, now, left[0]);
        left := left[1..];
      }
    }

    /** `embed_for_storage`: one vector a text, unless no backend is ready, no permit is free or the embedder fails. */
    method EmbedForStorage(c: Config, texts: seq<string>, turn: EmbedTurn, ghost s: State)
      returns (a: Answer, vectors: seq<Vector>)
      requires Inv(c, s) && Tracks(s) && AllOthers(turn.during)
      modifies this, store, signal
      ensures Tracks(Awaited(c, s, turn)) && a == AnswerTo(s, turn)
      ensures a == if !old(ready) then NotReady else if !turn.admitted then Busy
                   else if turn.works then Vectors else Failed
      ensures a == Vectors ==> |vectors| == |texts| && forall k :: 0 <= k < |texts| ==> vectors[k] == c.model(texts[k])
    {
      vectors := [];
      if !ready { return NotReady, []; }
      if !turn.admitted { return Busy, []; }
      Others(c, turn.during, s);
      if !turn.works { return Failed, []; }
      a, vectors := Vectors, seq(|texts|, k requires 0 <= k < |texts| => c.model(texts[k]));
    }
  }

  datatype PageOutcome = PageVectors(out: seq<Option<Vector>>) | StopNotReady | StopSaturated

  /** Where the step system's worker stands when a page embed ends this way. */
  predicate Ends(o: PageOutcome, page: seq<VectorlessNote>, stats: Stats, s: State) {
    match o
    case PageVectors(out) => s.phase == Writing(page, out) && s.stats == stats
    case StopNotReady => s.phase.Parked? && s.stats == stats.(stoppedEarly := true)
    case StopSaturated => s.phase.Reraising? && s.stats == stats.(stoppedEarly := true, stoppedSaturated := true)
  }

  /**
   * One row of the fallback: `slot` is what it adds to the page's results, `next` where
   * the step system then stands.
   */
  method EmbedOneRow(c: Config, server: Server, page: seq<VectorlessNote>, out: seq<Option<Vector>>,
                     turns: seq<EmbedTurn>, ghost s: State)
    returns (a: Answer, slot: Option<Vector>, ghost next: State)
    requires Inv(c, s) && server.Tracks(s) && s.phase == EmbeddingRows(page, out) && |out| < |page| && AreTurns(turns)
    modifies server, server.store, server.signal
    ensures Inv(c, next) && server.Tracks(next)
    ensures RowsThrough(c, s, turns) == if next.phase.EmbeddingRows? then RowsThrough(c, next, turns) else next
    ensures a == NotReady ==> next.phase.Parked? && next.stats == s.stats.(stoppedEarly := true)
    ensures a == Busy ==>
              next.phase.Reraising? && next.stats == s.stats.(stoppedEarly := true, stoppedSaturated := true)
    ensures a == Vectors || a == Failed ==> next.phase == AfterRow(page, out + [slot]) && next.stats == s.stats
    ensures a == Vectors ==> EmbedTurnAt(turns, |out|).works && slot == Some(c.model(TextOf(page[|out|])))
    ensures a == Failed ==> !EmbedTurnAt(turns, |out|).works && slot == None
  {
    var turn := EmbedTurnAt(turns, |out|);
    var vectors;
    a, vectors := server.EmbedForStorage(c, [TextOf(page[|out|])], turn, s);
    slot := if a == Vectors then Some(vectors[|vectors| - 1]) else None;
    FollowsNext(c, Awaited(c, s, turn), EmbedRow(a));
    next := Next(c, Awaited(c, s, turn), EmbedRow(a));
  }

  /** Each row so far has its own vector, or nothing where its own call failed. */
  predicate AreOwnAnswers(c: Config, page: seq<VectorlessNote>, turns: seq<EmbedTurn>, out: seq<Option<Vector>>) {
    && |out| <= |page|
    && forall k :: 0 <= k < |out| ==>
         out[k] == if k < |turns| && !turns[k].works then None else Some(c.model(TextOf(page[k])))
  }

  lemma OneMoreAnswer(c: Config, page: seq<VectorlessNote>, turns: seq<EmbedTurn>, out: seq<Option<Vector>>,
                      slot: Option<Vector>)
    requires AreOwnAnswers(c, page, turns, out) && |out| < |page|
    requires slot == if |out| < |turns| && !turns[|out|].works then None else Some(c.model(TextOf(page[|out|])))
    ensures AreOwnAnswers(c, page, turns, out + [slot])
  {
  }

  /** The row-by-row fallback of `embed_page`. */
  method EmbedRows(c: Config, server: Server, page: seq<VectorlessNote>, turns: seq<EmbedTurn>, ghost s: State)
    returns (o: PageOutcome)
    requires Inv(c, s) && server.Tracks(s) && s.phase == EmbeddingRows(page, []) && AreTurns(turns)
    modifies server, server.store, server.signal
    ensures server.Tracks(RowsThrough(c, s, turns)) && Ends(o, page, s.stats, RowsThrough(c, s, turns))
    ensures o.PageVectors? ==> |o.out| == |page| && AreOwnAnswers(c, page, turns, o.out)
  {
    var out := [];
    ghost var now, goal := s, RowsThrough(c, s, turns);
    while |out| < |page|
      invariant |out| <= |page| && Inv(c, now) && server.Tracks(now)
      invariant now.phase == AfterRow(page, out) && now.stats == s.stats
      invariant AreOwnAnswers(c, page, turns, out)
      invariant goal == if now.phase.EmbeddingRows? then RowsThrough(c, now, turns) else now
    {
      var a, slot;
      a, slot, now := EmbedOneRow(c, server, page, out, turns, now);
      if a == NotReady { return StopNotReady; }
      if a == Busy { return StopSaturated; }
      OneMoreAnswer(c, page, turns, out, slot);
      out := out + [slot];
    }
    o := PageVectors(out);
  }

  /** `embed_page`: the whole page in one call, and each row on its own when that fails. */
  method EmbedWholePage(c: Config, server: Server, page: seq<VectorlessNote>, turn: PageTurn, ghost s: State)
    returns (o: PageOutcome)
    requires Inv(c, s) && server.Tracks(s) && s.phase == EmbeddingPage(page) && IsTurn(turn)
    modifies server, server.store, server.signal
    ensures server.Tracks(EmbedThrough(c, s, turn)) && Ends(o, page, s.stats, EmbedThrough(c, s, turn))
    ensures o.PageVectors? ==>
              |o.out| == |page| && AreOwnAnswers(c, page, if turn.page.works then [] else turn.rows, o.out)
  {
    var texts := seq(|page|, k requires 0 <= k < |page| => TextOf(page[k]));
    var a, vectors;
    a, vectors := server.EmbedForStorage(c, texts, turn.page, s);
    ghost var waited := Awaited(c, s, turn.page);
    FollowsNext(c, waited, EmbedPage(a));
    match a
    case NotReady => return StopNotReady;
    case Busy => return StopSaturated;
    case Vectors =>
      o := PageVectors(seq(|page|, k requires 0 <= k < |page| => Some(vectors[k])));
      assert o.out == Embeddings(c, page);
    case Failed =>
      o := EmbedRows(c, server, page, turn.rows, PageEmbedded(c, waited, Failed));
  }

  /** The first rows past the cursor that lack a vector, in order, as many as asked for, each with its own text. */
  ghost predicate IsPageOf(db: Db, cursor: int, size: nat, page: seq<VectorlessNote>) {
    && |page| <= size && RowsAscend(page)
    && (forall k :: 0 <= k < |page| ==>
          var r := page[k].rowid;
          && cursor < r && r in db.notes && db.notes[r].active && r !in db.embeddings
          && page[k].title == db.notes[r].title && page[k].body == db.notes[r].body)
    && (forall r :: r in db.notes && db.notes[r].active && r !in db.embeddings && cursor < r ==>
          OnPage(page, r) || (|page| == size > 0 && page[size - 1].rowid < r))
  }

  lemma RowsArePage(db: Db, cursor: int, size: nat, rows: seq<int>)
    requires Consistent(db) && size > 0 && IsPage(IntOrder(), Missing(db), cursor, size, rows)
    ensures IsPageOf(db, cursor, size, NotesAt(db, rows))
  {
    var page := NotesAt(db, rows);
    forall i, j | 0 <= i < j < |page| ensures page[i].rowid < page[j].rowid { assert IntOrder()(rows[i], rows[j]); }
    forall k | 0 <= k < |rows| ensures cursor < rows[k] && IsMissing(db, rows[k]) {
      assert IntOrder()(cursor, rows[k]);
    }
    forall r | IsMissing(db, r) && cursor < r && !(|page| == size && page[size - 1].rowid < r) ensures OnPage(page, r) {
      assert r in Missing(db) && IntOrder()(cursor, r);
      assert |page| == size ==> !IntOrder()(rows[|rows| - 1], r);
      var k :| 0 <= k < |rows| && rows[k] == r;
      assert page[k].rowid == r;
    }
  }

  /** One read of the table past the cursor. */
  method ReadPageOf(c: Config, server: Server, cursor: int, first: seq<Event>, ghost s: State)
    returns (page: seq<VectorlessNote>)
    requires Inv(c, s) && server.Tracks(s) && s.phase == Reading(cursor) && AllOthers(first)
    modifies server, server.store, server.signal
    ensures server.Tracks(ReadThrough(c, s, first)) && ReadThrough(c, s, first).stats == s.stats
    ensures ReadThrough(c, s, first).phase == if page == [] then Parked else EmbeddingPage(page)
    ensures IsPageOf(server.store.State(), cursor, if c.pageSize < 1 then 1 else c.pageSize, page)
  {
    server.Others(c, first, s);
    var rows := server.store.NotesMissingEmbeddings(cursor, Limit(c));
    RowsArePage(server.store.State(), cursor, Limit(c), rows);
    page := NotesAt(Db(server.store.notes, server.store.embeddings, server.store.nextId), rows);
  }

  /** The figures of a sweep so far. */
  function WithPage(stats: Stats, scanned: nat, repaired: nat, failed: nat): Stats {
    stats.(scanned := stats.scanned + scanned, repaired := stats.repaired + repaired, failed := stats.failed + failed)
  }

  method WriteBackPage(c: Config, server: Server, page: seq<VectorlessNote>, out: seq<Option<Vector>>,
                       first: seq<Event>,
                       stats: Stats, ghost s: State)
    returns (stats': Stats)
    requires Inv(c, s) && server.Tracks(s) && s.phase == Writing(page, out) && s.stats == stats && AllOthers(first)
    modifies server, server.store, server.signal
    ensures server.Tracks(WriteThrough(c, s, first)) && stats' == WriteThrough(c, s, first).stats
    ensures WriteThrough(c, s, first).phase == Reading(Last(page)) && stats'.stoppedSaturated == stats.stoppedSaturated
  {
    server.Others(c, first, s);
    var repaired, failed := WritePage(server.store, page, out);
    stats' := WithPage(stats, |page|, repaired, failed);
  }

  /** One round of the sweep's loop; `done` when it returns from it. */
  method SweepPage(c: Config, server: Server, cursor: int, turn: PageTurn, stats: Stats, ghost s: State)
    returns (done: bool, cursor': int, stats': Stats)
    requires Inv(c, s) && server.Tracks(s) && IsTurn(turn)
    requires s.phase == Reading(cursor) && s.stats == stats && !stats.stoppedSaturated
    modifies server, server.store, server.signal
    ensures server.Tracks(RoundThrough(c, s, turn)) && stats' == RoundThrough(c, s, turn).stats
    ensures RoundThrough(c, s, turn).phase ==
            if !done then Reading(cursor') else if stats'.stoppedSaturated then Reraising else Parked
    ensures !done ==> !stats'.stoppedSaturated
  {
    var page := ReadPageOf(c, server, cursor, turn.beforeRead, s);
    if page == [] { return true, cursor, stats; }
    ghost var s1 := ReadThrough(c, s, turn.beforeRead);
    var o := EmbedWholePage(c, server, page, turn, s1);
    if o.StopNotReady? { return true, cursor, stats.(stoppedEarly := true); }
    if o.StopSaturated? { return true, cursor, stats.(stoppedEarly := true, stoppedSaturated := true); }
    stats' := WriteBackPage(c, server, page, o.out, turn.beforeWrite, stats, EmbedThrough(c, s1, turn));
    done, cursor' := false, page[|page| - 1].rowid;
  }

  /** `repair_missing_embeddings`: it ends, exactly where the step system does under the same script. */
  method RepairMissingEmbeddings(c: Config, server: Server, turns: seq<PageTurn>, ghost s: State) returns (stats: Stats)
    requires Inv(c, s) && server.Tracks(s) && s.phase == Reading(0) && s.stats == NO_STATS && IsScript(turns)
    modifies server, server.store, server.signal
    ensures server.Tracks(SweepThrough(c, s, turns)) && stats == SweepThrough(c, s, turns).stats
    ensures SweepThrough(c, s, turns).phase == if stats.stoppedSaturated then Reraising else Parked
  {
    stats := NO_STATS;
    var done, cursor, left := false, 0, turns;
    ghost var now, goal := s, SweepThrough(c, s, turns);
    while !done
      invariant Inv(c, now) && server.Tracks(now) && now.stats == stats && IsScript(left)
      invariant done ==> goal == now && now.phase == if stats.stoppedSaturated then Reraising else Parked
      invariant !done ==> now.phase == Reading(cursor) && !stats.stoppedSaturated && goal == SweepThrough(c, now, left)
      decreases !done, |left|, if now.phase.Reading? then Work(now) else 0
    {
      ghost var before := now;
      done, cursor, stats := SweepPage(c, server, cursor, FirstTurn(left), stats, before);
      now := RoundThrough(c, before, FirstTurn(left));
      if !done { RoundGoesOn(c, before, left); }
      left := LaterTurns(left);
    }
  }

  /** One round of `run_repair_worker`, from the raise that wakes it: only a saturated sweep raises again. */
  method RunOnce(c: Config, server: Server, turns: seq<PageTurn>, ghost s: State) returns (stats: Stats)
    requires Inv(c, s) && server.Tracks(s) && s.phase.Parked? && server.signal.permit && IsScript(turns)
    modifies server, server.store, server.signal
    ensures server.Tracks(WakeThrough(c, s, turns)) && stats == WakeThrough(c, s, turns).stats
  {
    server.signal.Wait();
    FollowsNext(c, s, Wake);
    ghost var woken := Woken(s);
    stats := RepairMissingEmbeddings(c, server, turns, woken);
    ghost var swept := SweepThrough(c, woken, turns);
    assert WakeThrough(c, s, turns) == AfterSweep(swept);
    MaybeRaise(server, stats, swept);
  }

  method MaybeRaise(server: Server, stats: Stats, ghost s: State)
    requires server.Tracks(s) && s.phase == if stats.stoppedSaturated then Reraising else Parked
    modifies server.signal
    ensures server.Tracks(AfterSweep(s))
  {
    if stats.stoppedSaturated { server.signal.Raise(); }
  }
}
