/**
 * The repair sweep under a script: where it leaves the step system when other
 * tasks do exactly what the script says at each of its awaits. A sweep that ends
 * has met finitely many actions of others, so every one follows some script; and
 * every scripted sweep is shown to be a run of the step system, which carries its
 * safety and its progress over.
 */
module RepairScript {
  import opened Wrappers
  import opened NoteStore
  import opened WriteBack
  import opened Pages
  import opened Repair
  import opened RepairProgress

  /** What tasks other than the worker do. */
  predicate IsOther(e: Event) {
    match e
    case Request(op) => IsAllowed(op)
    case Batch(_, _) => true
    case PayRaise => true
    case BecomeReady => true
    case BecomeUnavailable => true
    case _ => false
  }

  predicate AllOthers(es: seq<Event>) { forall k :: 0 <= k < |es| ==> IsOther(es[k]) }

  /** Whether a permit is free, what other tasks do while the embedder works, and whether it succeeds. */
  datatype EmbedTurn = EmbedTurn(admitted: bool, during: seq<Event>, works: bool)

  /** What happens around one page: before it is read, during its embeds, and before it is written back. */
  datatype PageTurn = PageTurn(beforeRead: seq<Event>, page: EmbedTurn, rows: seq<EmbedTurn>, beforeWrite: seq<Event>)

  const STILL_EMBED := EmbedTurn(true, [], true)
  const STILL_PAGE := PageTurn([], STILL_EMBED, [], [])

  predicate IsTurn(t: PageTurn) {
    && AllOthers(t.beforeRead) && AllOthers(t.page.during) && AllOthers(t.beforeWrite) && AreTurns(t.rows)
  }

  predicate AreTurns(ts: seq<EmbedTurn>) { forall k :: 0 <= k < |ts| ==> AllOthers(ts[k].during) }

  predicate IsScript(turns: seq<PageTurn>) { forall k :: 0 <= k < |turns| ==> IsTurn(turns[k]) }

  /** Once the script is used up nothing else happens. */
  function EmbedTurnAt(turns: seq<EmbedTurn>, k: nat): (t: EmbedTurn)
    requires AreTurns(turns)
    ensures AllOthers(t.during)
  {
    if k < |turns| then turns[k] else STILL_EMBED
  }

  function FirstTurn(turns: seq<PageTurn>): (t: PageTurn)
    requires IsScript(turns)
    ensures IsTurn(t)
  {
    if turns == [] then STILL_PAGE else turns[0]
  }

  function LaterTurns(turns: seq<PageTurn>): (later: seq<PageTurn>)
    requires IsScript(turns)
    ensures IsScript(later)
  {
    if turns == [] then [] else turns[1..]
  }

  /** Other tasks leave the worker where it was. */
  predicate SameWorker(s: State, s': State) { s'.phase == s.phase && s'.stats == s.stats && s'.sweeps == s.sweeps }

  /** `s'` comes of `s` by some run, invariant and all. */
  ghost predicate Follows(c: Config, s: State, s': State) { Inv(c, s') && Reaches(c, s, s') }

  lemma FollowsSelf(c: Config, s: State)
    requires Inv(c, s)
    ensures Follows(c, s, s)
  {
    ReachesSelf(c, s);
  }

  lemma FollowsNext(c: Config, s: State, e: Event)
    requires Inv(c, s) && Enabled(s, e)
    ensures Follows(c, s, Next(c, s, e))
  {
    NextInv(c, s, e);
    ReachesNext(c, s, e);
  }

  lemma FollowsOn(c: Config, a: State, b: State, d: State)
    requires Follows(c, a, b) && Follows(c, b, d)
    ensures Follows(c, a, d)
  {
    ReachesOn(c, a, b, d);
  }

  // ------------------------------------------------------------ other tasks

  /** A step that cannot happen now does not. */
  ghost function OtherStep(c: Config, s: State, e: Event): (s': State)
    requires Inv(c, s) && IsOther(e)
    ensures Follows(c, s, s') && SameWorker(s, s')
  {
    FollowsSelf(c, s);
    if Enabled(s, e) then FollowsNext(c, s, e); Next(c, s, e) else s
  }

  ghost function OtherSteps(c: Config, s: State, es: seq<Event>): (s': State)
    requires Inv(c, s) && AllOthers(es)
    ensures Follows(c, s, s') && SameWorker(s, s')
    decreases |es|
  {
    FollowsSelf(c, s);
    if es == [] then s
    else
      var s1 := OtherStep(c, s, es[0]);
      var s2 := OtherSteps(c, s1, es[1..]);
      FollowsOn(c, s, s1, s2);
      s2
  }

  // ------------------------------------------------------------- the sweep

  /** `embed_for_storage`: the backend first, then a permit, then the embedder. */
  function AnswerTo(s: State, t: EmbedTurn): Answer {
    if !s.ready then NotReady else if !t.admitted then Busy else if t.works then Vectors else Failed
  }

  /** Only a caller that was let in waits, and lets others run meanwhile. */
  ghost function Awaited(c: Config, s: State, t: EmbedTurn): (s': State)
    requires Inv(c, s) && AllOthers(t.during)
    ensures Follows(c, s, s') && SameWorker(s, s') && CanAnswer(s', AnswerTo(s, t))
  {
    FollowsSelf(c, s);
    if s.ready && t.admitted then OtherSteps(c, s, t.during) else s
  }

  ghost function RowsThrough(c: Config, s: State, turns: seq<EmbedTurn>): (s': State)
    requires Inv(c, s) && s.phase.EmbeddingRows? && AreTurns(turns)
    ensures Follows(c, s, s') && (s'.phase.Parked? || s'.phase.Reraising? || s'.phase.Writing?)
    decreases |s.phase.page| - |s.phase.out|
  {
    var t := EmbedTurnAt(turns, |s.phase.out|);
    var s1 := Awaited(c, s, t);
    var s2 := Next(c, s1, EmbedRow(AnswerTo(s, t)));
    FollowsNext(c, s1, EmbedRow(AnswerTo(s, t)));
    FollowsOn(c, s, s1, s2);
    if s2.phase.EmbeddingRows? then
      var s3 := RowsThrough(c, s2, turns);
      FollowsOn(c, s, s2, s3);
      s3
    else s2
  }

  /** `embed_page`. */
  ghost function EmbedThrough(c: Config, s: State, t: PageTurn): (s': State)
    requires Inv(c, s) && s.phase.EmbeddingPage? && IsTurn(t)
    ensures Follows(c, s, s') && (s'.phase.Parked? || s'.phase.Reraising? || s'.phase.Writing?)
    ensures t == STILL_PAGE && s.ready ==> s' == PageEmbedded(c, s, Vectors)
    ensures t == STILL_PAGE && s'.phase.Writing? ==> s.ready
  {
    var s1 := Awaited(c, s, t.page);
    var s2 := PageEmbedded(c, s1, AnswerTo(s, t.page));
    FollowsNext(c, s1, EmbedPage(AnswerTo(s, t.page)));
    FollowsOn(c, s, s1, s2);
    if s2.phase.EmbeddingRows? then
      var s3 := RowsThrough(c, s2, t.rows);
      FollowsOn(c, s, s2, s3);
      s3
    else s2
  }

  /** Reading a page, after whatever comes first. */
  ghost function ReadThrough(c: Config, s: State, first: seq<Event>): (s': State)
    requires Inv(c, s) && s.phase.Reading? && AllOthers(first)
    ensures Follows(c, s, s') && (s'.phase.Parked? || s'.phase.EmbeddingPage?)
  {
    var s1 := OtherSteps(c, s, first);
    FollowsNext(c, s1, ReadPage);
    FollowsOn(c, s, s1, PageRead(c, s1));
    PageRead(c, s1)
  }

  /** Writing a page back, after whatever comes first. */
  ghost function WriteThrough(c: Config, s: State, first: seq<Event>): (s': State)
    requires Inv(c, s) && s.phase.Writing? && AllOthers(first)
    ensures Follows(c, s, s') && s'.phase.Reading?
  {
    var s1 := OtherSteps(c, s, first);
    FollowsNext(c, s1, WritePageBack);
    FollowsOn(c, s, s1, PageWritten(s1));
    PageWritten(s1)
  }

  /** One round of the loop in `repair_missing_embeddings`. */
  ghost function RoundThrough(c: Config, s: State, t: PageTurn): (s': State)
    requires Inv(c, s) && s.phase.Reading? && IsTurn(t)
    ensures Follows(c, s, s') && (s'.phase.Parked? || s'.phase.Reraising? || s'.phase.Reading?)
    ensures t == STILL_PAGE && s.ready ==> s' == StillRound(c, s)
    ensures t == STILL_PAGE && s'.phase.Reading? ==> s.ready
  {
    var s1 := ReadThrough(c, s, t.beforeRead);
    if s1.phase.Parked? then s1
    else
      var s2 := EmbedThrough(c, s1, t);
      FollowsOn(c, s, s1, s2);
      if s2.phase.Writing? then
        var s3 := WriteThrough(c, s2, t.beforeWrite);
        FollowsOn(c, s, s2, s3);
        s3
      else s2
  }

  lemma RoundGoesOn(c: Config, s: State, turns: seq<PageTurn>)
    requires Inv(c, s) && s.phase.Reading? && IsScript(turns) && RoundThrough(c, s, FirstTurn(turns)).phase.Reading?
    ensures turns == [] ==> 0 <= Work(RoundThrough(c, s, STILL_PAGE)) < Work(s)
  {
    if turns == [] {
      StillRoundInv(c, s);
    }
  }

  /** `repair_missing_embeddings`: round after round until it parks or stops saturated. */
  ghost function SweepThrough(c: Config, s: State, turns: seq<PageTurn>): (s': State)
    requires Inv(c, s) && s.phase.Reading? && IsScript(turns)
    ensures Follows(c, s, s') && (s'.phase.Parked? || s'.phase.Reraising?)
    decreases |turns|, Work(s)
  {
    var s1 := RoundThrough(c, s, FirstTurn(turns));
    if s1.phase.Reading? then
      RoundGoesOn(c, s, turns);
      var s2 := SweepThrough(c, s1, LaterTurns(turns));
      FollowsOn(c, s, s1, s2);
      s2
    else s1
  }

  lemma {:induction false} StillScript(c: Config, s: State)
    requires Inv(c, s) && s.phase.Reading? && s.ready
    ensures SweepThrough(c, s, []) == StillSweep(c, s)
    decreases Work(s)
  {
    StillRoundInv(c, s);
    if StillRound(c, s).phase.Reading? { StillScript(c, StillRound(c, s)); }
  }

  /** The sweep parked with no row left, having scanned and repaired `n`. */
  ghost predicate RepairedAll(n: nat, s: State) {
    s.phase == Parked && s.stats == Stats(n, n, 0, false, false) && Missing(s.db) == {}
  }

  lemma StillFromStart(c: Config, s: State)
    requires Inv(c, s) && s.phase == Reading(0) && s.stats == NO_STATS && s.ready
    ensures RepairedAll(|Missing(s.db)|, StillSweep(c, s))
  {
    StillSweepRepairsAll(c, s);
    AllAreAhead(s.db);
  }

  /** A sweep nobody disturbs, the embedder ready, leaves no row without a vector, having counted each once. */
  lemma UndisturbedSweep(c: Config, s: State)
    requires Inv(c, s) && s.phase == Reading(0) && s.stats == NO_STATS && s.ready
    ensures RepairedAll(|Missing(s.db)|, SweepThrough(c, s, []))
  {
    StillScript(c, s);
    StillFromStart(c, s);
  }

  lemma AllAreAhead(db: Db)
    requires Consistent(db)
    ensures After(IntOrder(), Missing(db), 0) == Missing(db) && Ahead(db, 0) == |Missing(db)|
  {
  }

  /** After the sweep: only a saturated one raises again. */
  function AfterSweep(s: State): State { if s.phase.Reraising? then Raised(s).(phase := Parked) else s }

  lemma AfterSweepFollows(c: Config, s: State)
    requires Inv(c, s) && (s.phase.Parked? || s.phase.Reraising?)
    ensures Follows(c, s, AfterSweep(s)) && AfterSweep(s).phase.Parked?
  {
    FollowsSelf(c, s);
    if s.phase.Reraising? { FollowsNext(c, s, RaiseAgain); }
  }

  /** One wake-up: the permit goes, the sweep runs, and a saturated one raises again. */
  ghost function WakeThrough(c: Config, s: State, turns: seq<PageTurn>): (s': State)
    requires Inv(c, s) && Enabled(s, Wake) && IsScript(turns)
    ensures Follows(c, s, s') && s'.phase.Parked?
  {
    FollowsNext(c, s, Wake);
    var s1 := SweepThrough(c, Woken(s), turns);
    FollowsOn(c, s, Woken(s), s1);
    AfterSweepFollows(c, s1);
    FollowsOn(c, s, s1, AfterSweep(s1));
    AfterSweep(s1)
  }
}
