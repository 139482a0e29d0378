/**
 * What a repair sweep does with one page: the text it embeds, and the write-back
 * of the vectors under the store's lock (repair.rs, `storage_embedding_text`).
 */
module WriteBack {
  import opened Wrappers
  import opened NoteStore

  datatype VectorlessNote = VectorlessNote(rowid: int, title: string, body: string)

  /** The text a note is embedded as. */
  function StorageText(title: string, body: string): string { "title: " + title + " | text: " + body }

  function TextOf(n: VectorlessNote): string { StorageText(n.title, n.body) }

  /** Rows in order, none twice. */
  predicate RowsAscend(page: seq<VectorlessNote>) {
    forall i, j :: 0 <= i < j < |page| ==> page[i].rowid < page[j].rowid
  }

  /** One row's turn: a vector is written only if the row still lacks one. */
  function Filled1(db: Db, n: VectorlessNote, v: Option<Vector>): Db {
    if v.Some? then Embedded(db, n.rowid, v.value) else db
  }

  function Filled(db: Db, page: seq<VectorlessNote>, out: seq<Option<Vector>>): Db
    requires |out| == |page|
    decreases |page|
  {
    if page == [] then db else Filled(Filled1(db, page[0], out[0]), page[1..], out[1..])
  }

  /** Row `k` of the page gains its vector if the page is written back to `db`. */
  predicate Lands(db: Db, page: seq<VectorlessNote>, out: seq<Option<Vector>>, k: nat)
    requires k < |page| == |out|
  {
    out[k].Some? && IsMissing(db, page[k].rowid)
  }

  /** The rows of a page whose text was refused, and those whose vector landed. */
  ghost function RefusedIn(page: seq<VectorlessNote>, out: seq<Option<Vector>>): set<int>
    requires |out| == |page|
  {
    set k | 0 <= k < |page| && out[k].None? :: page[k].rowid
  }

  ghost function LandedIn(db: Db, page: seq<VectorlessNote>, out: seq<Option<Vector>>): set<int>
    requires |out| == |page|
  {
    set k | 0 <= k < |page| && Lands(db, page, out, k) :: page[k].rowid
  }

  /** The tallies of one page: vectors that landed, texts refused, rows that no longer qualified. */
  datatype Tally = Tally(repaired: nat, failed: nat, passed: nat)

  function Tallied(db: Db, page: seq<VectorlessNote>, out: seq<Option<Vector>>): (t: Tally)
    requires |out| == |page|
    ensures t.repaired + t.failed + t.passed == |page|
  {
    if page == [] then Tally(0, 0, 0)
    else
      var t := Tallied(db, page[1..], out[1..]);
      if out[0].None? then t.(failed := t.failed + 1)
      else if IsMissing(db, page[0].rowid) then t.(repaired := t.repaired + 1)
      else t.(passed := t.passed + 1)
  }

  lemma {:induction false} TallyIgnores(db: Db, db': Db, page: seq<VectorlessNote>, out: seq<Option<Vector>>)
    requires |out| == |page|
    requires forall k :: 0 <= k < |page| ==> (IsMissing(db, page[k].rowid) <==> IsMissing(db', page[k].rowid))
    ensures Tallied(db, page, out) == Tallied(db', page, out)
  {
    if page != [] {
      assert IsMissing(db, page[0].rowid) <==> IsMissing(db', page[0].rowid);
      TallyIgnores(db, db', page[1..], out[1..]);
    }
  }

  /** Between `db` and `db'` only vectors were added: one, its own, for each row that lands. */
  ghost predicate GainsVectors(db: Db, page: seq<VectorlessNote>, out: seq<Option<Vector>>, db': Db)
    requires |out| == |page|
  {
    && db' == db.(embeddings := db'.embeddings)
    && (forall k :: 0 <= k < |page| && Lands(db, page, out, k) ==> HasVector(db', page[k].rowid, out[k].value))
    && (forall r :: r in db.embeddings ==> HasVector(db', r, db.embeddings[r]))
    && (forall r :: r in db'.embeddings && r !in db.embeddings ==> LandsAt(db, page, out, r))
  }

  predicate HasVector(db: Db, r: int, v: Vector) { r in db.embeddings && db.embeddings[r] == v }

  predicate LandsAt(db: Db, page: seq<VectorlessNote>, out: seq<Option<Vector>>, r: int)
    requires |out| == |page|
  {
    exists k :: 0 <= k < |page| && page[k].rowid == r && Lands(db, page, out, k)
  }

  lemma GainStep(db: Db, page: seq<VectorlessNote>, out: seq<Option<Vector>>, db': Db)
    requires page != [] && |out| == |page| && RowsAscend(page)
    requires GainsVectors(Filled1(db, page[0], out[0]), page[1..], out[1..], db')
    ensures GainsVectors(db, page, out, db')
  {
    var mid, rest, more := Filled1(db, page[0], out[0]), page[1..], out[1..];
    assert forall k :: 0 <= k < |rest| ==> rest[k].rowid != page[0].rowid;
    forall k | 0 <= k < |page| && Lands(db, page, out, k) ensures HasVector(db', page[k].rowid, out[k].value) {
      if k > 0 {
        assert Lands(mid, rest, more, k - 1);
      } else {
        assert HasVector(db', page[0].rowid, mid.embeddings[page[0].rowid]);
      }
    }
    forall r | r in db'.embeddings && r !in db.embeddings ensures LandsAt(db, page, out, r) {
      if r !in mid.embeddings {
        var k :| 0 <= k < |rest| && rest[k].rowid == r && Lands(mid, rest, more, k);
        assert page[k + 1].rowid == r && Lands(db, page, out, k + 1);
      } else {
        assert page[0].rowid == r && Lands(db, page, out, 0);
      }
    }
    forall r | r in db.embeddings ensures HasVector(db', r, db.embeddings[r]) {
      assert HasVector(db', r, mid.embeddings[r]);
    }
  }

  /**
   * The write-back gives exactly the rows that land their own vectors, as many as were
   * tallied, and moves nothing else.
   */
  lemma {:induction false} FilledMeans(db: Db, page: seq<VectorlessNote>, out: seq<Option<Vector>>)
    requires |out| == |page| && RowsAscend(page)
    ensures GainsVectors(db, page, out, Filled(db, page, out))
    ensures |Filled(db, page, out).embeddings| == |db.embeddings| + Tallied(db, page, out).repaired
    decreases |page|
  {
    if page != [] {
      var mid, rest, more := Filled1(db, page[0], out[0]), page[1..], out[1..];
      assert forall k :: 0 <= k < |rest| ==> rest[k].rowid != page[0].rowid;
      TallyIgnores(mid, db, rest, more);
      FilledMeans(mid, rest, more);
      GainStep(db, page, out, Filled(db, page, out));
    }
  }

  lemma RefusedFirst(page: seq<VectorlessNote>, out: seq<Option<Vector>>)
    requires page != [] && |out| == |page| && RowsAscend(page)
    ensures RefusedIn(page, out) == RefusedIn(page[1..], out[1..]) + if out[0].None? then {page[0].rowid} else {}
    ensures page[0].rowid !in RefusedIn(page[1..], out[1..])
  {
    var rest, more := page[1..], out[1..];
    forall k | 0 <= k < |rest|
      ensures rest[k] == page[k + 1] && more[k] == out[k + 1] && page[0].rowid < rest[k].rowid
    {
    }
    forall r | r in RefusedIn(page, out) && r != page[0].rowid ensures r in RefusedIn(rest, more) {
      var k :| 0 <= k < |page| && out[k].None? && page[k].rowid == r;
      assert rest[k - 1].rowid == r && more[k - 1].None?;
    }
  }

  lemma LandedFirst(db: Db, page: seq<VectorlessNote>, out: seq<Option<Vector>>)
    requires page != [] && |out| == |page| && RowsAscend(page)
    ensures LandedIn(db, page, out) ==
            LandedIn(db, page[1..], out[1..]) + if Lands(db, page, out, 0) then {page[0].rowid} else {}
    ensures page[0].rowid !in LandedIn(db, page[1..], out[1..])
  {
    var rest, more := page[1..], out[1..];
    forall k | 0 <= k < |rest|
      ensures rest[k] == page[k + 1] && more[k] == out[k + 1] && page[0].rowid < rest[k].rowid
    {
    }
    forall r | r in LandedIn(db, page, out) && r != page[0].rowid ensures r in LandedIn(db, rest, more) {
      var k :| 0 <= k < |page| && Lands(db, page, out, k) && page[k].rowid == r;
      assert rest[k - 1].rowid == r && Lands(db, rest, more, k - 1);
    }
    forall r | r in LandedIn(db, rest, more) ensures r in LandedIn(db, page, out) {
      var k :| 0 <= k < |rest| && Lands(db, rest, more, k) && rest[k].rowid == r;
      assert Lands(db, page, out, k + 1) && page[k + 1].rowid == r;
    }
  }

  lemma OneMoreRow(rows: set<int>, r: int, counts: bool)
    requires r !in rows
    ensures |rows + if counts then {r} else {}| == |rows| + if counts then 1 else 0
  {
    assert rows + {} == rows;
  }

  lemma TallyFirst(db: Db, page: seq<VectorlessNote>, out: seq<Option<Vector>>)
    requires page != [] && |out| == |page|
    ensures var t, t' := Tallied(db, page, out), Tallied(db, page[1..], out[1..]);
            && t.failed == t'.failed + (if out[0].None? then 1 else 0)
            && t.repaired == t'.repaired + (if Lands(db, page, out, 0) then 1 else 0)
  {
  }

  /** The tallies count rows: those refused, and those whose vector landed. */
  lemma {:induction false} TallyCounts(db: Db, page: seq<VectorlessNote>, out: seq<Option<Vector>>)
    requires |out| == |page| && RowsAscend(page)
    ensures Tallied(db, page, out).failed == |RefusedIn(page, out)|
    ensures Tallied(db, page, out).repaired == |LandedIn(db, page, out)|
    decreases |page|
  {
    if page != [] {
      var rest, more := page[1..], out[1..];
      TallyCounts(db, rest, more);
      RefusedFirst(page, out);
      LandedFirst(db, page, out);
      TallyFirst(db, page, out);
      OneMoreRow(RefusedIn(rest, more), page[0].rowid, out[0].None?);
      OneMoreRow(LandedIn(db, rest, more), page[0].rowid, Lands(db, page, out, 0));
    }
  }

  /**
   * A page written back: vectors gained by the rows that still lacked one, and how many
   * rows gained or were refused.
   */
  ghost predicate IsWrittenBack(db: Db, page: seq<VectorlessNote>, out: seq<Option<Vector>>, db': Db,
                                repaired: nat, failed: nat)
    requires |out| == |page|
  {
    && GainsVectors(db, page, out, db')
    && repaired == |set k | 0 <= k < |page| && out[k].Some? && IsMissing(db, page[k].rowid) :: page[k].rowid|
    && failed == |set k | 0 <= k < |page| && out[k].None? :: page[k].rowid|
  }

  /** What the write-back does and counts, told row by row. */
  lemma FillsAndCounts(db: Db, page: seq<VectorlessNote>, out: seq<Option<Vector>>)
    requires |out| == |page| && RowsAscend(page)
    ensures var t := Tallied(db, page, out); IsWrittenBack(db, page, out, Filled(db, page, out), t.repaired, t.failed)
  {
    FilledMeans(db, page, out);
    TallyCounts(db, page, out);
    assert LandedIn(db, page, out)
        == set k | 0 <= k < |page| && out[k].Some? && IsMissing(db, page[k].rowid) :: page[k].rowid;
    assert RefusedIn(page, out) == set k | 0 <= k < |page| && out[k].None? :: page[k].rowid;
  }

  /** The text of a note can be read back from what is embedded, given how long its title is. */
  lemma TextReadsBack(a: VectorlessNote, b: VectorlessNote)
    ensures TextOf(a) == "title: " + a.title + " | text: " + a.body
    ensures TextOf(a) == TextOf(b) && |a.title| == |b.title| ==> a.title == b.title && a.body == b.body
  {
    if TextOf(a) == TextOf(b) && |a.title| == |b.title| {
      var s, t := TextOf(a), TextOf(b);
      assert s[7..7 + |a.title|] == a.title && t[7..7 + |b.title|] == b.title;
      assert s[7 + |a.title| + 9..] == a.body && t[7 + |b.title| + 9..] == b.body;
    }
  }

  /** The write-back loop of `repair_missing_embeddings`. */
  method WritePage(store: ServerDb, page: seq<VectorlessNote>, out: seq<Option<Vector>>)
    returns (repaired: nat, failed: nat)
    requires store.Valid() && |out| == |page| && RowsAscend(page)
    modifies store`embeddings
    ensures store.Valid() && store.State() == Filled(old(store.State()), page, out)
    ensures repaired == Tallied(old(store.State()), page, out).repaired
    ensures failed == Tallied(old(store.State()), page, out).failed
  {
    ghost var db := store.State();
    ghost var whole, tally := Filled(db, page, out), Tallied(db, page, out);
    repaired, failed := 0, 0;
    var notes, vectors := page, out;
    while notes != []
      invariant store.Valid() && |vectors| == |notes| && RowsAscend(notes)
      invariant Filled(store.State(), notes, vectors) == whole
      invariant var t := Tallied(store.State(), notes, vectors);
                tally.repaired == repaired + t.repaired && tally.failed == failed + t.failed
      decreases |notes|
    {
      ghost var before := store.State();
      if vectors[0].Some? {
        var written := store.InsertEmbeddingIfMissing(notes[0].rowid, vectors[0].value);
        if written { repaired := repaired + 1; }
      } else {
        failed := failed + 1;
      }
      TallyIgnores(before, store.State(), notes[1..], vectors[1..]);
      notes, vectors := notes[1..], vectors[1..];
    }
  }
}
