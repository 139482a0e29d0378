/**
 * The delta pull: a client walks the `since_id` feed page by page, feeding back
 * the last id it was given, while other requests go on changing the store
 * (db.rs `notes_since_id`, the client's pull.rs).
 */
module CursorPull {
  import opened Wrappers
  import opened NoteStore
  import opened Pages
  import opened Sets
  import Lex
  import UuidV7

  /** The page size the client asks for, and compares each page against. */
  const PULL_LIMIT: nat := 100

  // ----------------------------------------------- walks over changing key sets

  /** The walk's next cursor. */
  function LastOr<K>(page: seq<K>, cursor: K): K { if page == [] then cursor else page[|page| - 1] }

  /** A short page ends the walk; a full one is followed by `rest`. */
  function Then<K>(page: seq<K>, limit: nat, rest: (seq<K>, bool)): (seq<K>, bool) {
    if |page| < limit || limit == 0 then (page, true) else (page + rest.0, rest.1)
  }

  /** What a walk delivers when page `i` is read from `snaps[i]`, and whether a short page ended it. */
  ghost function Walk<K(!new)>(less: (K, K) -> bool, snaps: seq<set<K>>, cursor: K, limit: nat): (seq<K>, bool)
    requires IsOrder(less)
  {
    if snaps == [] then ([], false)
    else
      var page := Page(less, snaps[0], cursor, limit);
      Then(page, limit, Walk(less, snaps[1..], LastOr(page, cursor), limit))
  }

  predicate AllAfter<K>(less: (K, K) -> bool, cursor: K, p: seq<K>) { forall i :: 0 <= i < |p| ==> less(cursor, p[i]) }

  /** No walk repeats a key or goes back, however the store changes under it. */
  lemma {:induction false} WalkAscends<K(!new)>(less: (K, K) -> bool, snaps: seq<set<K>>, cursor: K, limit: nat)
    requires IsOrder(less)
    ensures Ascending(less, Walk(less, snaps, cursor, limit).0)
    ensures AllAfter(less, cursor, Walk(less, snaps, cursor, limit).0)
  {
    if snaps != [] {
      var page := Page(less, snaps[0], cursor, limit);
      PageFacts(less, snaps[0], cursor, limit);
      if |page| == limit && limit > 0 {
        WalkAscends(less, snaps[1..], page[|page| - 1], limit);
      }
    }
  }

  /** A finished walk misses nothing that was there the whole time. */
  lemma {:induction false} WalkMissesNothing<K(!new)>(less: (K, K) -> bool, snaps: seq<set<K>>, cursor: K, limit: nat,
                                                      x: K)
    requires IsOrder(less) && limit > 0 && Walk(less, snaps, cursor, limit).1
    requires less(cursor, x) && forall i :: 0 <= i < |snaps| ==> x in snaps[i]
    ensures x in Walk(less, snaps, cursor, limit).0
  {
    var page := Page(less, snaps[0], cursor, limit);
    PageFacts(less, snaps[0], cursor, limit);
    if |page| == limit && less(page[|page| - 1], x) {
      WalkMissesNothing(less, snaps[1..], page[|page| - 1], limit, x);
    }
  }

  /** Everything delivered was in the store when some page was read. */
  lemma {:induction false} WalkInvents<K(!new)>(less: (K, K) -> bool, snaps: seq<set<K>>, cursor: K, limit: nat, k: nat)
    returns (i: nat)
    requires IsOrder(less) && k < |Walk(less, snaps, cursor, limit).0|
    ensures i < |snaps| && Walk(less, snaps, cursor, limit).0[k] in snaps[i]
  {
    var page := Page(less, snaps[0], cursor, limit);
    PageFacts(less, snaps[0], cursor, limit);
    if k < |page| { return 0; }
    i := WalkInvents(less, snaps[1..], page[|page| - 1], limit, k - |page|);
    i := i + 1;
  }

  lemma OneMorePage(pages: nat, limit: nat)
    ensures (pages + 1) * limit == limit + pages * limit
  {
  }

  lemma {:induction false} UnfinishedWalkIsFull<K(!new)>(less: (K, K) -> bool, snaps: seq<set<K>>, cursor: K,
                                                         limit: nat)
    requires IsOrder(less) && limit > 0 && !Walk(less, snaps, cursor, limit).1
    ensures |Walk(less, snaps, cursor, limit).0| == |snaps| * limit
  {
    if snaps != [] {
      var page := Page(less, snaps[0], cursor, limit);
      PageFacts(less, snaps[0], cursor, limit);
      UnfinishedWalkIsFull(less, snaps[1..], page[|page| - 1], limit);
      OneMorePage(|snaps[1..]|, limit);
    }
  }

  /** A walk ends once the pages read have room for every key ever present past the cursor. */
  lemma WalkEnds<K(!new)>(less: (K, K) -> bool, snaps: seq<set<K>>, cursor: K, limit: nat, all: set<K>)
    requires IsOrder(less) && limit > 0
    requires forall i, x :: 0 <= i < |snaps| && x in snaps[i] && less(cursor, x) ==> x in all
    requires |all| < |snaps| * limit
    ensures Walk(less, snaps, cursor, limit).1
  {
    var (delivered, finished) := Walk(less, snaps, cursor, limit);
    if !finished {
      UnfinishedWalkIsFull(less, snaps, cursor, limit);
      WalkAscends(less, snaps, cursor, limit);
      AscendingCount(less, delivered);
      forall k | 0 <= k < |delivered| ensures delivered[k] in all {
        var i := WalkInvents(less, snaps, cursor, limit, k);
      }
      assert ToSet(delivered) <= all;
      SubsetCount(ToSet(delivered), all);
    }
  }

  /** On a still store a finished walk delivers exactly what lies past the cursor. */
  lemma StillWalk<K(!new)>(less: (K, K) -> bool, snaps: seq<set<K>>, cursor: K, limit: nat, s: set<K>)
    requires IsOrder(less) && limit > 0 && Walk(less, snaps, cursor, limit).1
    requires forall i :: 0 <= i < |snaps| ==> snaps[i] == s
    ensures var delivered := Walk(less, snaps, cursor, limit).0;
            ToSet(delivered) == After(less, s, cursor) && |delivered| == |After(less, s, cursor)|
  {
    var delivered := Walk(less, snaps, cursor, limit).0;
    WalkAscends(less, snaps, cursor, limit);
    AscendingCount(less, delivered);
    forall x | x in After(less, s, cursor) ensures x in ToSet(delivered) {
      WalkMissesNothing(less, snaps, cursor, limit, x);
    }
    forall k | 0 <= k < |delivered| ensures delivered[k] in After(less, s, cursor) {
      var i := WalkInvents(less, snaps, cursor, limit, k);
    }
    assert ToSet(delivered) == After(less, s, cursor);
  }

  // -------------------------------------------------- the store under the walk

  /** `others` done in order. */
  ghost function Run(db: Db, others: seq<Op>): Db
    decreases |others|
  {
    if others == [] then db else Run(Applied(db, others[0]), others[1..])
  }

  /** The active ids at each page: `gaps[i]` is what other requests did just before page `i`. */
  ghost function Snapshots(db: Db, gaps: seq<seq<Op>>, project: int): seq<set<string>>
    decreases |gaps|
  {
    if gaps == [] then []
    else var now := Run(db, gaps[0]); [ActiveIds(now, project)] + Snapshots(now, gaps[1..], project)
  }

  /** The call can take the note `id` of `project` out of the active set. */
  predicate Retires(op: Op, project: int, id: string) {
    match op
    case Archive(p, i) => p == project && i == id
    case Supersede(p, i, _) => p == project && i == id
    case Delete(p, i) => p == project && i == id
    case _ => false
  }

  predicate Spares(others: seq<Op>, project: int, id: string) {
    forall j :: 0 <= j < |others| ==> !Retires(others[j], project, id)
  }

  predicate LeavesAlone(gaps: seq<seq<Op>>, project: int, id: string) {
    forall i :: 0 <= i < |gaps| ==> Spares(gaps[i], project, id)
  }

  predicate Allowed(others: seq<Op>) { forall j :: 0 <= j < |others| ==> IsAllowed(others[j]) }

  predicate AllAllowed(gaps: seq<seq<Op>>) { forall i :: 0 <= i < |gaps| ==> Allowed(gaps[i]) }

  lemma ActiveIdHasRow(db: Db, project: int, id: string) returns (r: int)
    requires id in ActiveIds(db, project)
    ensures IsRow(db, project, id, r) && IsActiveIn(db, project, r)
  {
    r :| r in db.notes && IsActiveIn(db, project, r) && db.notes[r].syncId == Some(id);
  }

  lemma StaysActive(db: Db, op: Op, project: int, id: string)
    requires Consistent(db) && IsAllowed(op) && id in ActiveIds(db, project) && !Retires(op, project, id)
    ensures id in ActiveIds(Applied(db, op), project)
  {
    var r := ActiveIdHasRow(db, project, id);
    var after := Applied(db, op);
    if op.Delete? && RowOf(db, op.project, op.id).Some? {
      assert IsRow(db, op.project, op.id, RowOf(db, op.project, op.id).value);
    }
    assert r in after.notes && IsActiveIn(after, project, r) && after.notes[r].syncId == Some(id);
  }

  lemma {:induction false} RunStaysActive(db: Db, others: seq<Op>, project: int, id: string)
    requires Consistent(db) && id in ActiveIds(db, project)
    requires Allowed(others) && Spares(others, project, id)
    ensures Consistent(Run(db, others)) && id in ActiveIds(Run(db, others), project)
    decreases |others|
  {
    if others != [] {
      AppliedConsistent(db, others[0]);
      StaysActive(db, others[0], project, id);
      RunStaysActive(Applied(db, others[0]), others[1..], project, id);
    }
  }

  lemma {:induction false} SnapshotsKeep(db: Db, gaps: seq<seq<Op>>, project: int, id: string)
    requires Consistent(db) && id in ActiveIds(db, project) && AllAllowed(gaps) && LeavesAlone(gaps, project, id)
    ensures forall i :: 0 <= i < |Snapshots(db, gaps, project)| ==> id in Snapshots(db, gaps, project)[i]
    decreases |gaps|
  {
    if gaps != [] {
      RunStaysActive(db, gaps[0], project, id);
      var now := Run(db, gaps[0]);
      SnapshotsKeep(now, gaps[1..], project, id);
    }
  }

  /** The page read when other requests have done `others` first. */
  ghost function NextPage(db: Db, others: seq<Op>, project: int, cursor: string): seq<string> {
    TextIsOrder();
    Page(TextOrder(), ActiveIds(Run(db, others), project), cursor, PULL_LIMIT)
  }

  /** What a pull delivers when `gaps[i]` happens before page `i`, and whether a short page ended it. */
  ghost function Pulled(db: Db, gaps: seq<seq<Op>>, project: int, cursor: string): (seq<string>, bool)
    decreases |gaps|
  {
    if gaps == [] then ([], false)
    else
      var page := NextPage(db, gaps[0], project, cursor);
      Then(page, PULL_LIMIT, Pulled(Run(db, gaps[0]), gaps[1..], project, LastOr(page, cursor)))
  }

  lemma {:induction false} PulledIsWalk(db: Db, gaps: seq<seq<Op>>, project: int, cursor: string)
    ensures IsOrder(TextOrder())
    ensures Pulled(db, gaps, project, cursor) == Walk(TextOrder(), Snapshots(db, gaps, project), cursor, PULL_LIMIT)
    decreases |gaps|
  {
    TextIsOrder();
    if gaps != [] {
      var page := NextPage(db, gaps[0], project, cursor);
      PulledIsWalk(Run(db, gaps[0]), gaps[1..], project, LastOr(page, cursor));
    }
  }

  predicate DeliveredOnce(delivered: seq<string>, id: string) {
    && id in delivered
    && forall i, j :: 0 <= i < j < |delivered| ==> delivered[i] != id || delivered[j] != id
  }

  /**
   * A finished pull gives every note that was active at the start, sorts past the
   * cursor and was not archived, superseded or deleted meanwhile, exactly once;
   * and it repeats nothing and never goes back.
   */
  lemma PullDeliversOnce(db: Db, gaps: seq<seq<Op>>, project: int, cursor: string, id: string)
    requires Consistent(db) && AllAllowed(gaps)
    requires id in ActiveIds(db, project) && Lex.Less(cursor, id) && LeavesAlone(gaps, project, id)
    ensures var (delivered, finished) := Pulled(db, gaps, project, cursor);
            Ascending(TextOrder(), delivered) && (finished ==> DeliveredOnce(delivered, id))
  {
    PulledIsWalk(db, gaps, project, cursor);
    var snaps, delivered := Snapshots(db, gaps, project), Pulled(db, gaps, project, cursor).0;
    SnapshotsKeep(db, gaps, project, id);
    assert TextOrder()(cursor, id);
    if Pulled(db, gaps, project, cursor).1 { WalkMissesNothing(TextOrder(), snaps, cursor, PULL_LIMIT, id); }
    WalkAscends(TextOrder(), snaps, cursor, PULL_LIMIT);
    forall i, j | 0 <= i < j < |delivered| ensures delivered[i] != delivered[j] {
      assert TextOrder()(delivered[i], delivered[j]);
    }
  }

  // --------------------------------------------------------- the still store

  /** Every row carries an id the server takes from clients, which includes those it mints. */
  ghost predicate AllAccepted(db: Db) {
    forall r :: r in db.notes ==> db.notes[r].syncId.Some? && UuidV7.IsAccepted(db.notes[r].syncId.value)
  }

  ghost predicate AddsAccepted(op: Op) {
    op.Add? && op.note.syncId.Some? ==> UuidV7.IsAccepted(op.note.syncId.value)
  }

  /** No call gives a row that stays another id. */
  lemma KeepsIds(db: Db, op: Op, r: int)
    requires Consistent(db) && IsAllowed(op) && r in db.notes && r in Applied(db, op).notes
    ensures Applied(db, op).notes[r].syncId == db.notes[r].syncId
  {
    assert r < db.nextId;
  }

  lemma AddsOneRow(db: Db, op: Op, r: int)
    requires Consistent(db) && IsAllowed(op) && r !in db.notes && r in Applied(db, op).notes
    ensures op.Add? && Applied(db, op).notes[r] == op.note
  {
  }

  lemma AppliedAccepted(db: Db, op: Op)
    requires Consistent(db) && AllAccepted(db) && IsAllowed(op) && AddsAccepted(op)
    ensures AllAccepted(Applied(db, op))
  {
    var after := Applied(db, op);
    forall r | r in after.notes ensures after.notes[r].syncId.Some? && UuidV7.IsAccepted(after.notes[r].syncId.value) {
      if r in db.notes { KeepsIds(db, op, r); } else { AddsOneRow(db, op, r); }
    }
  }

  /** Once ids have been backfilled, every run whose new ids are acceptable leaves every row with such an id. */
  lemma {:induction false} RunAccepted(db: Db, others: seq<Op>)
    requires Consistent(db) && AllAccepted(db)
    requires Allowed(others) && forall j :: 0 <= j < |others| ==> AddsAccepted(others[j])
    ensures Consistent(Run(db, others)) && AllAccepted(Run(db, others))
    decreases |others|
  {
    if others != [] {
      AppliedConsistent(db, others[0]);
      AppliedAccepted(db, others[0]);
      RunAccepted(Applied(db, others[0]), others[1..]);
    }
  }

  lemma BackfilledAccepted(db: Db, entropy: map<int, UuidV7.Bytes>)
    requires SuppliesEntropy(db, entropy)
    requires forall r :: r in db.notes && db.notes[r].syncId.Some? ==> UuidV7.IsAccepted(db.notes[r].syncId.value)
    ensures AllAccepted(Backfilled(db, entropy))
  {
    var after := Backfilled(db, entropy);
    forall r | r in after.notes
      ensures after.notes[r].syncId.Some? && UuidV7.IsAccepted(after.notes[r].syncId.value)
    {
      if db.notes[r].syncId.None? { UuidV7.MintedIsAccepted(db.notes[r].createdAt, entropy[r]); }
    }
  }

  lemma {:induction false} InjectiveCount<K, V>(m: map<K, V>)
    requires forall a, b :: a in m && b in m && a != b ==> m[a] != m[b]
    ensures |m.Values| == |m.Keys|
    decreases |m.Keys|
  {
    if m.Keys != {} {
      var a :| a in m.Keys;
      var rest := m - {a};
      InjectiveCount(rest);
      assert rest.Keys == m.Keys - {a};
      assert m.Values == rest.Values + {m[a]} by {
        forall v | v in m.Values ensures v in rest.Values + {m[a]} {
          var b :| b in m && m[b] == v;
          assert b != a ==> b in rest;
        }
      }
    } else {
      assert m.Values == {};
    }
  }

  /** The active rows whose id sorts past the cursor. */
  function RowsPast(db: Db, project: int, cursor: string): set<int> {
    set r | r in ActiveRows(db, project) && db.notes[r].syncId.Some? && Lex.Less(cursor, db.notes[r].syncId.value)
  }

  lemma OneIdPerRow(db: Db, project: int, cursor: string)
    requires Consistent(db)
    ensures |After(TextOrder(), ActiveIds(db, project), cursor)| == |RowsPast(db, project, cursor)|
  {
    var ids := After(TextOrder(), ActiveIds(db, project), cursor);
    var m := map r | r in RowsPast(db, project, cursor) :: db.notes[r].syncId.value;
    assert m.Keys == RowsPast(db, project, cursor);
    forall id | id in ids ensures id in m.Values {
      var r := ActiveIdHasRow(db, project, id);
      assert r in m && m[r] == id;
    }
    assert m.Values == ids;
    InjectiveCount(m);
  }

  predicate NothingElse(gaps: seq<seq<Op>>) { forall i :: 0 <= i < |gaps| ==> gaps[i] == [] }

  lemma {:induction false} StillSnapshots(db: Db, gaps: seq<seq<Op>>, project: int)
    requires NothingElse(gaps)
    ensures |Snapshots(db, gaps, project)| == |gaps|
    ensures forall i :: 0 <= i < |gaps| ==> Snapshots(db, gaps, project)[i] == ActiveIds(db, project)
    decreases |gaps|
  {
    if gaps != [] {
      assert gaps[0] == [];
      StillSnapshots(db, gaps[1..], project);
    }
  }

  /** On a still store a pull delivers each active note whose id sorts past the cursor, once, and ends in time. */
  lemma StillPull(db: Db, gaps: seq<seq<Op>>, project: int, cursor: string)
    requires Consistent(db) && NothingElse(gaps)
    requires |ActiveRows(db, project)| < |gaps| * PULL_LIMIT
    ensures var (delivered, finished) := Pulled(db, gaps, project, cursor);
            && finished && ToSet(delivered) == After(TextOrder(), ActiveIds(db, project), cursor)
            && |delivered| == |RowsPast(db, project, cursor)|
  {
    PulledIsWalk(db, gaps, project, cursor);
    var ids, snaps := ActiveIds(db, project), Snapshots(db, gaps, project);
    StillSnapshots(db, gaps, project);
    OneIdPerRow(db, project, cursor);
    SubsetCount(RowsPast(db, project, cursor), ActiveRows(db, project));
    var past := After(TextOrder(), ids, cursor);
    WalkEnds(TextOrder(), snaps, cursor, PULL_LIMIT, past);
    StillWalk(TextOrder(), snaps, cursor, PULL_LIMIT, ids);
  }

  /**
   * A full pull delivers as many notes as `active_note_count` reports exactly when every
   * active id sorts past its cursor.
   */
  lemma FullPullMatchesCount(db: Db, gaps: seq<seq<Op>>, project: int, cursor: string)
    requires Consistent(db) && NothingElse(gaps)
    requires |ActiveRows(db, project)| < |gaps| * PULL_LIMIT
    ensures |Pulled(db, gaps, project, cursor).0| == |ActiveRows(db, project)| <==>
            forall r :: IsActiveIn(db, project, r) ==>
              db.notes[r].syncId.Some? && Lex.Less(cursor, db.notes[r].syncId.value)
  {
    StillPull(db, gaps, project, cursor);
    var past, rows := RowsPast(db, project, cursor), ActiveRows(db, project);
    if |past| == |rows| {
      SubsetFills(past, rows);
      forall r | IsActiveIn(db, project, r)
        ensures db.notes[r].syncId.Some? && Lex.Less(cursor, db.notes[r].syncId.value)
      {
        assert r in rows;
      }
    } else {
      assert past <= rows && past != rows;
      var r :| r in rows && r !in past;
      assert IsActiveIn(db, project, r);
    }
  }

  /**
   * After any run on a store whose ids were backfilled or sent by clients, a pull
   * from the nil cursor delivers exactly the active ids, as many as
   * `active_note_count` reports.
   */
  lemma NilPullIsFull(db: Db, others: seq<Op>, gaps: seq<seq<Op>>, project: int)
    requires Consistent(db) && AllAccepted(db)
    requires Allowed(others) && forall j :: 0 <= j < |others| ==> AddsAccepted(others[j])
    requires NothingElse(gaps) && |ActiveRows(Run(db, others), project)| < |gaps| * PULL_LIMIT
    ensures var now := Run(db, others);
            var (delivered, finished) := Pulled(now, gaps, project, UuidV7.Text(UuidV7.NIL_BYTES));
            finished && |delivered| == |ActiveRows(now, project)| && ToSet(delivered) == ActiveIds(now, project)
  {
    RunAccepted(db, others);
    var now, nil := Run(db, others), UuidV7.Text(UuidV7.NIL_BYTES);
    forall r | r in now.notes
      ensures now.notes[r].syncId.Some? && Lex.Less(nil, now.notes[r].syncId.value)
    {
      UuidV7.AcceptedPastNil(now.notes[r].syncId.value);
    }
    FullPullMatchesCount(now, gaps, project, nil);
    StillPull(now, gaps, project, nil);
    assert After(TextOrder(), ActiveIds(now, project), nil) == ActiveIds(now, project);
  }

  lemma IndicesFollow<K(!new)>(less: (K, K) -> bool, p: seq<K>, i: nat, j: nat)
    requires IsOrder(less) && Ascending(less, p)
    requires i < |p| && j < |p| && less(p[i], p[j])
    ensures i < j
  {
  }

  lemma PulledAscends(db: Db, gaps: seq<seq<Op>>, project: int, cursor: string)
    ensures Ascending(TextOrder(), Pulled(db, gaps, project, cursor).0)
  {
    PulledIsWalk(db, gaps, project, cursor);
    WalkAscends(TextOrder(), Snapshots(db, gaps, project), cursor, PULL_LIMIT);
  }

  lemma ArriveInOrder(db: Db, gaps: seq<seq<Op>>, project: int, cursor: string, i: nat, j: nat)
    ensures var delivered := Pulled(db, gaps, project, cursor).0;
            i < |delivered| && j < |delivered| && Lex.Less(delivered[i], delivered[j]) ==> i < j
  {
    TextIsOrder();
    PulledAscends(db, gaps, project, cursor);
    var delivered := Pulled(db, gaps, project, cursor).0;
    if i < |delivered| && j < |delivered| && Lex.Less(delivered[i], delivered[j]) {
      IndicesFollow(TextOrder(), delivered, i, j);
    }
  }

  /** Two backfilled notes arrive in the order they were created. */
  lemma BackfilledArriveInCreationOrder(db: Db, entropy: map<int, UuidV7.Bytes>, gaps: seq<seq<Op>>, project: int,
                                        cursor: string, r1: int, r2: int, i: nat, j: nat)
    requires SuppliesEntropy(db, entropy) && r1 in db.notes && r2 in db.notes
    requires db.notes[r1].syncId.None? && db.notes[r2].syncId.None?
    requires 0 <= db.notes[r1].createdAt < db.notes[r2].createdAt && db.notes[r2].createdAt * 1000 < UuidV7.TWO_48
    ensures var after := Backfilled(db, entropy);
            Delivers(after, gaps, project, cursor, i, r1) && Delivers(after, gaps, project, cursor, j, r2) ==> i < j
  {
    BackfillOrder(db, entropy, r1, r2);
    ArriveInOrder(Backfilled(db, entropy), gaps, project, cursor, i, j);
  }

  /** Row `r` is the `i`th note a pull delivers. */
  ghost predicate Delivers(db: Db, gaps: seq<seq<Op>>, project: int, cursor: string, i: nat, r: int) {
    var delivered := Pulled(db, gaps, project, cursor).0;
    r in db.notes && i < |delivered| && db.notes[r].syncId == Some(delivered[i])
  }

  // ------------------------------------------------------------- the client

  method DoOthers(store: ServerDb, others: seq<Op>)
    requires store.Valid() && Allowed(others)
    modifies store
    ensures store.Valid() && store.State() == Run(old(store.State()), others)
    decreases |others|
  {
    if others != [] {
      store.Apply(others[0]);
      DoOthers(store, others[1..]);
    }
  }

  /** With `delivered` in hand and `more` to come, the pull amounts to `whole`. */
  ghost predicate Continues(whole: (seq<string>, bool), delivered: seq<string>, more: (seq<string>, bool)) {
    whole.0 == delivered + more.0 && whole.1 == more.1
  }

  lemma PulledUnfolds(db: Db, gaps: seq<seq<Op>>, project: int, cursor: string)
    requires gaps != []
    ensures var page := NextPage(db, gaps[0], project, cursor);
            Pulled(db, gaps, project, cursor) ==
            Then(page, PULL_LIMIT, Pulled(Run(db, gaps[0]), gaps[1..], project, LastOr(page, cursor)))
  {
  }

  lemma ThenContinues(whole: (seq<string>, bool), delivered: seq<string>, page: seq<string>, limit: nat,
                      rest: (seq<string>, bool))
    requires limit > 0 && Continues(whole, delivered, Then(page, limit, rest))
    ensures |page| < limit ==> whole == (delivered + page, true)
    ensures |page| >= limit ==> Continues(whole, delivered + page, rest)
  {
    assert delivered + (page + rest.0) == (delivered + page) + rest.0;
  }

  /** A drain part-way: what is in hand and what is to come make the whole pull. */
  ghost predicate IsDraining(whole: (seq<string>, bool), delivered: seq<string>,
                             db: Db, gaps: seq<seq<Op>>, project: int, cursor: string)
  {
    AllAllowed(gaps) && Continues(whole, delivered, Pulled(db, gaps, project, cursor))
  }

  lemma StartsDraining(db: Db, gaps: seq<seq<Op>>, project: int, cursor: string)
    requires AllAllowed(gaps)
    ensures IsDraining(Pulled(db, gaps, project, cursor), [], db, gaps, project, cursor)
  {
  }

  lemma PageTaken(whole: (seq<string>, bool), delivered: seq<string>, page: seq<string>,
                  db: Db, gaps: seq<seq<Op>>, project: int, cursor: string)
    requires gaps != [] && page == NextPage(db, gaps[0], project, cursor)
    requires IsDraining(whole, delivered, db, gaps, project, cursor)
    ensures |page| < PULL_LIMIT ==> whole == (delivered + page, true)
    ensures |page| >= PULL_LIMIT ==>
              IsDraining(whole, delivered + page, Run(db, gaps[0]), gaps[1..], project, LastOr(page, cursor))
  {
    PulledUnfolds(db, gaps, project, cursor);
    var rest := Pulled(Run(db, gaps[0]), gaps[1..], project, LastOr(page, cursor));
    ThenContinues(whole, delivered, page, PULL_LIMIT, rest);
  }

  lemma PagesOver(whole: (seq<string>, bool), delivered: seq<string>, db: Db, project: int, cursor: string)
    requires IsDraining(whole, delivered, db, [], project, cursor)
    ensures whole == (delivered, false)
  {
    assert delivered + [] == delivered;
  }

  method PullSince(store: ServerDb, project: int, cursor: string, others: seq<Op>) returns (page: seq<string>)
    requires store.Valid() && Allowed(others)
    modifies store
    ensures store.Valid() && store.State() == Run(old(store.State()), others)
    ensures page == NextPage(old(store.State()), others, project, cursor)
  {
    DoOthers(store, others);
    page := store.NotesSinceId(project, cursor, PULL_LIMIT);
  }

  /** `drain_pages_since`, with what other requests do between its pages given as a script. */
  method DrainPagesSince(store: ServerDb, project: int, since: string, gaps: seq<seq<Op>>)
    returns (delivered: seq<string>, finished: bool)
    requires store.Valid() && AllAllowed(gaps)
    modifies store
    ensures store.Valid()
    ensures (delivered, finished) == Pulled(old(store.State()), gaps, project, since)
  {
    delivered, finished := [], false;
    var cursor, left := since, gaps;
    ghost var db := store.State();
    ghost var whole := Pulled(db, gaps, project, since);
    StartsDraining(db, gaps, project, since);
    while left != []
      invariant store.Valid() && store.State() == db && !finished
      invariant IsDraining(whole, delivered, db, left, project, cursor)
      decreases |left|
    {
      var page := PullSince(store, project, cursor, left[0]);
      PageTaken(whole, delivered, page, db, left, project, cursor);
      delivered := delivered + page;
      if |page| < PULL_LIMIT { return delivered, true; }
      db, cursor, left := Run(db, left[0]), LastOr(page, cursor), left[1..];
    }
    PagesOver(whole, delivered, db, project, cursor);
  }
}
