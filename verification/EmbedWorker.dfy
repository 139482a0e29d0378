/**
 * One embedder worker (embedder_llama.rs `run_job`, `worker_loop`): a reused
 * token batch and inference context, and why reusing them never shows in an
 * answer. The engine is opaque; a context adds the cache left by earlier
 * decodes and the possibility of being wedged by a fault.
 */
module EmbedWorker {
  import opened Wrappers
  import EmbedPool

  type Token = int
  type Vector = seq<real>

  /** One token of a batch or a cache: its place in its sequence, and whether it bears output. */
  datatype Slot = Slot(token: Token, position: nat, sequence: nat, isOutput: bool)

  /** `pooled` reads sequence 0's embedding off a cache; `garbage` is what a wedged context reads instead. */
  datatype Engine = Engine(
    tokenize: string -> Option<seq<Token>>, eos: Token, cap: nat,
    pooled: seq<Slot> -> Vector, garbage: seq<Slot> -> Vector,
    normalise: Vector -> Vector, isFinite: Vector -> bool)

  datatype EmbedError = Cancelled(completed: nat, total: nat) | Tokenization | Inference | NonFinite

  datatype Fault = NoFault | BatchFault | DecodeFault | ReadFault

  /** A job, with what each look at its cancel flag will see and what goes wrong at each chunk. */
  datatype Job = Job(texts: seq<string>, isCancelled: nat -> bool, fault: nat -> Fault, buildFails: bool)

  type Answer = Result<seq<Vector>, EmbedError>

  predicate IsCancelled(r: Answer) { r.Failure? && r.error.Cancelled? }

  // ------------------------------------------------------- what an answer is

  /** A text's own tokens: end marker appended first, then the cap applied. */
  function Capped(e: Engine, tokens: seq<Token>): (capped: seq<Token>)
    ensures |capped| <= e.cap
  {
    var all := tokens + [e.eos];
    if |all| > e.cap then all[..e.cap] else all
  }

  /** Every text's tokens, or nothing if one has none. */
  function TokenLists(e: Engine, texts: seq<string>): (o: Option<seq<seq<Token>>>)
    ensures o.Some? ==> |o.value| == |texts| && forall i :: 0 <= i < |texts| ==> |o.value[i]| <= e.cap
  {
    if texts == [] then Some([])
    else
      match (e.tokenize(texts[0]), TokenLists(e, texts[1..]))
      case (Some(tokens), Some(rest)) => Some([Capped(e, tokens)] + rest)
      case _ => None
  }

  /** The slots of one token list as sequence 0, every token bearing output. */
  function Sequence(tokens: seq<Token>): (slots: seq<Slot>)
    ensures |slots| == |tokens|
  {
    seq(|tokens|, i requires 0 <= i < |tokens| => Slot(tokens[i], i, 0, true))
  }

  /** The vector of one token list, whatever came before it. */
  function VectorOf(e: Engine, tokens: seq<Token>): Vector { e.normalise(e.pooled(Sequence(tokens))) }

  /** Chunks `i` and on, as a context fresh for each chunk would answer. */
  function FromChunk(e: Engine, job: Job, lists: seq<seq<Token>>, i: nat): Answer
    requires i <= |lists|
    decreases |lists| - i
  {
    if i == |lists| then Success([])
    else if job.isCancelled(i + 1) then Failure(Cancelled(i, |lists|))
    else if job.fault(i) != NoFault then Failure(Inference)
    else if !e.isFinite(VectorOf(e, lists[i])) then Failure(NonFinite)
    else
      match FromChunk(e, job, lists, i + 1)
      case Success(rest) => Success([VectorOf(e, lists[i])] + rest)
      case Failure(error) => Failure(error)
  }

  /** The answer of a context built for this job alone. */
  function FreshAnswer(e: Engine, job: Job): Answer {
    if job.isCancelled(0) then Failure(Cancelled(0, |job.texts|))
    else match TokenLists(e, job.texts)
      case None => Failure(Tokenization)
      case Some(lists) => FromChunk(e, job, lists, 0)
  }

  predicate Tokenizes(e: Engine, texts: seq<string>) { forall i :: 0 <= i < |texts| ==> e.tokenize(texts[i]).Some? }

  /** The vector of one text on its own. */
  function TextVector(e: Engine, text: string): Vector
    requires e.tokenize(text).Some?
  {
    VectorOf(e, Capped(e, e.tokenize(text).value))
  }

  lemma {:induction false} ListsAre(e: Engine, texts: seq<string>)
    ensures TokenLists(e, texts).Some? <==> Tokenizes(e, texts)
    ensures TokenLists(e, texts).Some? ==>
              forall i :: 0 <= i < |texts| ==> TokenLists(e, texts).value[i] == Capped(e, e.tokenize(texts[i]).value)
  {
    if texts != [] {
      ListsAre(e, texts[1..]);
      assert Tokenizes(e, texts) ==> e.tokenize(texts[0]).Some? && Tokenizes(e, texts[1..]) by {
        assert forall i :: 0 <= i < |texts[1..]| ==> texts[1..][i] == texts[i + 1];
      }
      if e.tokenize(texts[0]).Some? && Tokenizes(e, texts[1..]) {
        assert forall i :: 1 <= i < |texts| ==> texts[i] == texts[1..][i - 1];
      }
    }
  }

  predicate RunsClean(e: Engine, job: Job, lists: seq<seq<Token>>, i: nat) {
    forall k :: i <= k < |lists| ==> IsCleanChunk(e, job, lists, k)
  }

  predicate IsCleanChunk(e: Engine, job: Job, lists: seq<seq<Token>>, k: nat)
    requires k < |lists|
  {
    !job.isCancelled(k + 1) && job.fault(k) == NoFault && e.isFinite(VectorOf(e, lists[k]))
  }

  lemma {:induction false} ChunksAre(e: Engine, job: Job, lists: seq<seq<Token>>, i: nat)
    requires i <= |lists|
    ensures FromChunk(e, job, lists, i).Success? <==> RunsClean(e, job, lists, i)
    ensures var r := FromChunk(e, job, lists, i);
            r.Success? ==>
              |r.value| == |lists| - i && forall k :: 0 <= k < |r.value| ==> r.value[k] == VectorOf(e, lists[i + k])
    decreases |lists| - i
  {
    if i < |lists| {
      ChunksAre(e, job, lists, i + 1);
      assert RunsClean(e, job, lists, i) <==> IsCleanChunk(e, job, lists, i) && RunsClean(e, job, lists, i + 1);
    }
  }

  /**
   * A job succeeds exactly when nothing cancels it, every text tokenizes, no chunk
   * faults and every vector is finite.
   */
  predicate GoesThrough(e: Engine, job: Job) {
    && !job.isCancelled(0)
    && Tokenizes(e, job.texts)
    && forall k :: 0 <= k < |job.texts| ==> TextGoesThrough(e, job, k)
  }

  predicate TextGoesThrough(e: Engine, job: Job, k: nat)
    requires k < |job.texts| && e.tokenize(job.texts[k]).Some?
  {
    !job.isCancelled(k + 1) && job.fault(k) == NoFault && e.isFinite(TextVector(e, job.texts[k]))
  }

  /** `input` is `tokens` and then the end marker, as many of those as the cap allows. */
  predicate IsInput(e: Engine, tokens: seq<Token>, input: seq<Token>) {
    && |input| == (if |tokens| + 1 < e.cap then |tokens| + 1 else e.cap)
    && forall i :: 0 <= i < |input| ==> input[i] == if i < |tokens| then tokens[i] else e.eos
  }

  /** `v` is what the engine makes of that input, every token bearing output, on a cache of its own. */
  ghost predicate IsVectorOf(e: Engine, tokens: seq<Token>, v: Vector) {
    exists slots: seq<Slot> ::
      && |slots| == (if |tokens| + 1 < e.cap then |tokens| + 1 else e.cap)
      && (forall i :: 0 <= i < |slots| ==> slots[i] == Slot(if i < |tokens| then tokens[i] else e.eos, i, 0, true))
      && v == e.normalise(e.pooled(slots))
  }

  lemma TextVectorIs(e: Engine, text: string)
    requires e.tokenize(text).Some?
    ensures IsVectorOf(e, e.tokenize(text).value, TextVector(e, text))
  {
    var slots := Sequence(Capped(e, e.tokenize(text).value));
    assert TextVector(e, text) == e.normalise(e.pooled(slots));
  }

  /** The vectors of a successful answer: one for each text, of its own tokens and nothing else. */
  ghost predicate AreVectorsOf(e: Engine, texts: seq<string>, vectors: seq<Vector>) {
    && |vectors| == |texts|
    && forall k :: 0 <= k < |texts| ==>
         e.tokenize(texts[k]).Some? && IsVectorOf(e, e.tokenize(texts[k]).value, vectors[k])
  }

  /**
   * What ends a job early: a cancellation seen first, a text without tokens before
   * any chunk, or the first chunk that is cancelled, faults or is not finite.
   */
  ghost predicate FailsWith(e: Engine, job: Job, error: EmbedError) {
    if job.isCancelled(0) then error == Cancelled(0, |job.texts|)
    else if !Tokenizes(e, job.texts) then error == Tokenization
    else exists k ::
      && 0 <= k < |job.texts| && (forall j :: 0 <= j < k ==> TextGoesThrough(e, job, j))
      && error == (if job.isCancelled(k + 1) then Cancelled(k, |job.texts|)
                   else if job.fault(k) != NoFault then Inference else NonFinite)
      && !TextGoesThrough(e, job, k)
  }

  lemma {:induction false} ChunksFailWith(e: Engine, job: Job, lists: seq<seq<Token>>, i: nat) returns (k: nat)
    requires i <= |lists| && FromChunk(e, job, lists, i).Failure?
    ensures i <= k < |lists| && !IsCleanChunk(e, job, lists, k)
    ensures forall j :: i <= j < k ==> IsCleanChunk(e, job, lists, j)
    ensures FromChunk(e, job, lists, i).error ==
            if job.isCancelled(k + 1) then Cancelled(k, |lists|)
            else if job.fault(k) != NoFault then Inference else NonFinite
    decreases |lists| - i
  {
    if IsCleanChunk(e, job, lists, i) { k := ChunksFailWith(e, job, lists, i + 1); } else { k := i; }
  }

  /** Which error a job that does not succeed ends with. */
  lemma ErrorIsTheFirst(e: Engine, job: Job)
    ensures FreshAnswer(e, job).Failure? ==> FailsWith(e, job, FreshAnswer(e, job).error)
  {
    ListsAre(e, job.texts);
    if !job.isCancelled(0) && Tokenizes(e, job.texts) && FreshAnswer(e, job).Failure? {
      var lists := TokenLists(e, job.texts).value;
      assert forall k :: 0 <= k < |lists| ==> VectorOf(e, lists[k]) == TextVector(e, job.texts[k]);
      assert forall k :: 0 <= k < |lists| ==> (IsCleanChunk(e, job, lists, k) <==> TextGoesThrough(e, job, k));
      var k := ChunksFailWith(e, job, lists, 0);
      assert !TextGoesThrough(e, job, k);
    }
  }

  lemma AnswerIsTexts(e: Engine, job: Job)
    ensures FreshAnswer(e, job).Success? <==> GoesThrough(e, job)
    ensures FreshAnswer(e, job).Success? ==>
              |FreshAnswer(e, job).value| == |job.texts| &&
              forall k :: 0 <= k < |job.texts| ==>
                e.tokenize(job.texts[k]).Some? && FreshAnswer(e, job).value[k] == TextVector(e, job.texts[k])
  {
    ListsAre(e, job.texts);
    if Tokenizes(e, job.texts) {
      var lists := TokenLists(e, job.texts).value;
      ChunksAre(e, job, lists, 0);
      assert forall k :: 0 <= k < |lists| ==> VectorOf(e, lists[k]) == TextVector(e, job.texts[k]);
      assert forall k :: 0 <= k < |lists| ==> (IsCleanChunk(e, job, lists, k) <==> TextGoesThrough(e, job, k));
    }
  }

  /** When a job succeeds, and that each vector then depends on its own text and nothing else. */
  lemma AnswerIsPerText(e: Engine, job: Job)
    ensures FreshAnswer(e, job).Success? <==> GoesThrough(e, job)
    ensures FreshAnswer(e, job).Success? ==> AreVectorsOf(e, job.texts, FreshAnswer(e, job).value)
  {
    AnswerIsTexts(e, job);
    if FreshAnswer(e, job).Success? {
      forall k | 0 <= k < |job.texts|
        ensures IsVectorOf(e, e.tokenize(job.texts[k]).value, FreshAnswer(e, job).value[k])
      {
        TextVectorIs(e, job.texts[k]);
      }
    }
  }

  /** The whole answer, told from the job and the engine alone. */
  ghost predicate IsAnswerTo(e: Engine, job: Job, r: Answer) {
    match r
    case Success(vectors) => GoesThrough(e, job) && AreVectorsOf(e, job.texts, vectors)
    case Failure(error) => !GoesThrough(e, job) && FailsWith(e, job, error)
  }

  lemma FreshAnswers(e: Engine, job: Job)
    ensures IsAnswerTo(e, job, FreshAnswer(e, job))
  {
    AnswerIsPerText(e, job);
    ErrorIsTheFirst(e, job);
  }

  // ------------------------------------------------- the batch and the context

  /** `LlamaBatch`: made once for the worker's whole life, for one sequence of at most `capacity` tokens. */
  class Batch {
    const capacity: nat
    var slots: seq<Slot>

    constructor (capacity: nat)
      ensures this.capacity == capacity && slots == []
    {
      this.capacity, slots := capacity, [];
    }

    method Clear()
      modifies this`slots
      ensures slots == []
    {
      slots := [];
    }

    /** Token by token behind what the batch holds; it ends where the room does, or earlier on a fault. */
    method AddSequence(tokens: seq<Token>, fault: Fault) returns (ok: bool)
      modifies this`slots
      ensures ok == (fault != BatchFault && (tokens == [] || |old(slots)| + |tokens| <= capacity))
      ensures ok ==> slots == old(slots) + Sequence(tokens)
    {
      if fault == BatchFault { return false; }
      for i := 0 to |tokens|
        invariant slots == old(slots) + Sequence(tokens)[..i] && (|slots| <= capacity || i == 0)
      {
        if |slots| >= capacity { return false; }
        slots := slots + [Slot(tokens[i], i, 0, true)];
      }
      ok := true;
    }
  }

  class Context {
    var cache: seq<Slot>
    var wedged: bool
    /** Saw an error other than a cancellation. */
    ghost var suspect: bool

    ghost predicate Usable()
      reads this
    {
      !wedged && !suspect
    }

    constructor ()
      ensures Usable() && cache == []
    {
      cache, wedged, suspect := [], false, false;
    }

    method ClearKvCache()
      modifies this`cache
      ensures cache == []
    {
      cache := [];
    }

    /** A decode adds the batch as it stands to the cache; one that faults may leave the context wedged. */
    method Decode(batch: Batch, fault: Fault) returns (ok: bool)
      modifies this`cache, this`wedged
      ensures cache == old(cache) + batch.slots && ok == (fault != DecodeFault)
      ensures wedged == (old(wedged) || fault == DecodeFault)
    {
      cache := cache + batch.slots;
      ok := fault != DecodeFault;
      wedged := wedged || !ok;
    }

    method ReadEmbedding(e: Engine, fault: Fault) returns (v: Option<Vector>)
      modifies this`wedged
      ensures v == if fault == ReadFault then None else Some(if old(wedged) then e.garbage(cache) else e.pooled(cache))
      ensures wedged == (old(wedged) || fault == ReadFault)
    {
      if fault == ReadFault {
        wedged := true;
        return None;
      }
      v := Some(if wedged then e.garbage(cache) else e.pooled(cache));
    }
  }

  /** `run_job`'s upfront pass: no decode happens unless every text tokenizes. */
  method TokenizeAll(e: Engine, texts: seq<string>) returns (o: Option<seq<seq<Token>>>)
    ensures o == TokenLists(e, texts)
    ensures o.Some? <==> Tokenizes(e, texts)
    ensures o.Some? ==> forall k :: 0 <= k < |texts| ==> IsInput(e, e.tokenize(texts[k]).value, o.value[k])
  {
    var lists := [];
    ListsAre(e, texts);
    for i := 0 to |texts|
      invariant |lists| == i && forall k :: 0 <= k < i ==> e.tokenize(texts[k]).Some?
      invariant forall k :: 0 <= k < i ==> lists[k] == Capped(e, e.tokenize(texts[k]).value)
    {
      var tokens := e.tokenize(texts[i]);
      if tokens.None? { return None; }
      var all := tokens.value + [e.eos];
      if |all| > e.cap { all := all[..e.cap]; }
      lists := lists + [all];
    }
    o := Some(lists);
    assert lists == TokenLists(e, texts).value;
  }

  /** One chunk through the reused batch and context, whatever either held before. */
  method EmbedChunk(ctx: Context, batch: Batch, e: Engine, tokens: seq<Token>, fault: Fault)
    returns (r: Result<Vector, EmbedError>)
    requires ctx.Usable() && |tokens| <= batch.capacity
    modifies ctx, batch
    ensures r == if fault != NoFault then Failure(Inference)
                 else if e.isFinite(VectorOf(e, tokens)) then Success(VectorOf(e, tokens)) else Failure(NonFinite)
    ensures r.Success? ==> ctx.Usable()
  {
    batch.Clear();
    var ok := batch.AddSequence(tokens, fault);
    if !ok { return Failure(Inference); }
    ctx.ClearKvCache();
    ok := ctx.Decode(batch, fault);
    if !ok { return Failure(Inference); }
    assert ctx.cache == Sequence(tokens);
    var read := ctx.ReadEmbedding(e, fault);
    if read.None? { return Failure(Inference); }
    var v := e.normalise(read.value);
    if !e.isFinite(v) { return Failure(NonFinite); }
    return Success(v);
  }

  /** `out` in hand and `rest` to come make the whole answer. */
  ghost predicate Continues(whole: Answer, out: seq<Vector>, rest: Answer) {
    whole == if rest.Success? then Success(out + rest.value) else rest
  }

  lemma ContinueChunk(e: Engine, job: Job, lists: seq<seq<Token>>, i: nat, whole: Answer, out: seq<Vector>)
    requires i < |lists| && Continues(whole, out, FromChunk(e, job, lists, i)) && IsCleanChunk(e, job, lists, i)
    ensures Continues(whole, out + [VectorOf(e, lists[i])], FromChunk(e, job, lists, i + 1))
  {
    var rest := FromChunk(e, job, lists, i + 1);
    if rest.Success? {
      assert out + ([VectorOf(e, lists[i])] + rest.value) == out + [VectorOf(e, lists[i])] + rest.value;
    }
  }

  /**
   * `run_job`: on any usable context, warm or new, whatever its cache and the
   * batch hold, the answer is a fresh context's; only a failure other than a cancellation leaves
   * the context unusable.
   */
  method RunJob(ctx: Context, batch: Batch, e: Engine, job: Job) returns (r: Answer)
    requires ctx.Usable() && batch.capacity == e.cap
    modifies ctx, batch
    ensures r == FreshAnswer(e, job)
    ensures IsAnswerTo(e, job, r)
    ensures ctx.Usable() <==> r.Success? || IsCancelled(r)
  {
    FreshAnswers(e, job);
    if job.isCancelled(0) { return Failure(Cancelled(0, |job.texts|)); }
    var lists := TokenizeAll(e, job.texts);
    if lists.None? {
      ctx.suspect := true;
      return Failure(Tokenization);
    }
    var out := [];
    var i := 0;
    ghost var whole := FreshAnswer(e, job);
    ContinueStart(whole);
    while i < |lists.value|
      invariant i <= |lists.value| && ctx.Usable()
      invariant Continues(whole, out, FromChunk(e, job, lists.value, i))
    {
      if job.isCancelled(i + 1) {
        ctx.ClearKvCache();
        return Failure(Cancelled(i, |lists.value|));
      }
      var v := EmbedChunk(ctx, batch, e, lists.value[i], job.fault(i));
      if v.Failure? {
        ctx.suspect := true;
        return Failure(v.error);
      }
      ContinueChunk(e, job, lists.value, i, whole, out);
      out := out + [v.value];
      i := i + 1;
    }
    ContinueEnd(whole, out);
    r := Success(out);
  }

  lemma ContinueStart(whole: Answer)
    ensures Continues(whole, [], whole)
  {
    if whole.Success? { assert [] + whole.value == whole.value; }
  }

  lemma ContinueEnd(whole: Answer, out: seq<Vector>)
    requires Continues(whole, out, Success([]))
    ensures whole == Success(out)
  {
    assert out + [] == out;
  }

  // -------------------------------------------------------- the worker's loop

  /** What the worker's wait returns: a job, or its deadline. The script's end is the channel's close. */
  datatype Arrival = Deliver(job: Job) | Timeout

  /** What becomes of a job's reply channel. */
  datatype Reply = Sent(answer: Answer) | Dropped

  /** A worker with a context answers as a fresh one does; without one it must first build it. */
  function AnswerFor(e: Engine, job: Job, isWarm: bool): Answer {
    if !isWarm && job.buildFails then Failure(Inference) else FreshAnswer(e, job)
  }

  /**
   * Whether the worker holds a context after an arrival: only a deadline, a failed build
   * or a real failure costs it.
   */
  predicate IsWarmAfter(e: Engine, at: EmbedPool.Place, isWarm: bool, a: Arrival) {
    match a
    case Timeout => isWarm && !EmbedPool.IsIdleDropped(at)
    case Deliver(job) => IsKept(e, isWarm, job)
  }

  predicate IsKept(e: Engine, isWarm: bool, job: Job) {
    (isWarm || !job.buildFails) && (FreshAnswer(e, job).Success? || IsCancelled(FreshAnswer(e, job)))
  }

  function Replies(e: Engine, at: EmbedPool.Place, isWarm: bool, arrivals: seq<Arrival>): seq<Reply>
    decreases |arrivals|
  {
    if arrivals == [] then []
    else
      var rest := Replies(e, at, IsWarmAfter(e, at, isWarm, arrivals[0]), arrivals[1..]);
      if arrivals[0].Timeout? then rest else [Sent(AnswerFor(e, arrivals[0].job, isWarm))] + rest
  }

  function JobsOf(arrivals: seq<Arrival>): seq<Job> {
    if arrivals == [] then [] else (if arrivals[0].Deliver? then [arrivals[0].job] else []) + JobsOf(arrivals[1..])
  }

  /** Whether a worker that was warm or not is warm after all these arrivals. */
  function WarmAfter(e: Engine, at: EmbedPool.Place, isWarm: bool, arrivals: seq<Arrival>): bool
    decreases |arrivals|
  {
    if arrivals == [] then isWarm else WarmAfter(e, at, IsWarmAfter(e, at, isWarm, arrivals[0]), arrivals[1..])
  }

  /** One arrival more: a deadline adds no reply, a job adds the answer of the worker as it then stands. */
  lemma {:induction false} OneMore(e: Engine, at: EmbedPool.Place, isWarm: bool, arrivals: seq<Arrival>, a: Arrival)
    ensures Replies(e, at, isWarm, arrivals + [a]) == Replies(e, at, isWarm, arrivals) +
            (if a.Timeout? then [] else [Sent(AnswerFor(e, a.job, WarmAfter(e, at, isWarm, arrivals)))])
    ensures JobsOf(arrivals + [a]) == JobsOf(arrivals) + (if a.Timeout? then [] else [a.job])
    decreases |arrivals|
  {
    if arrivals == [] {
      assert [] + [a] == [a] && [a][1..] == [];
    } else {
      var next := IsWarmAfter(e, at, isWarm, arrivals[0]);
      OneMore(e, at, next, arrivals[1..], a);
      assert (arrivals + [a])[0] == arrivals[0] && (arrivals + [a])[1..] == arrivals[1..] + [a];
    }
  }

  /**
   * Warm or cold, idle-dropped or not, whatever came before: the worker sends one
   * reply for each job, in order, and each is the answer a context newly built
   * for that job would give, unless that very build fails.
   */
  lemma {:induction false} WarmIsFresh(e: Engine, at: EmbedPool.Place, isWarm: bool, arrivals: seq<Arrival>)
    ensures AllFaithful(e, JobsOf(arrivals), Replies(e, at, isWarm, arrivals))
    decreases |arrivals|
  {
    if arrivals != [] {
      var next := IsWarmAfter(e, at, isWarm, arrivals[0]);
      WarmIsFresh(e, at, next, arrivals[1..]);
      assert arrivals[0].Timeout? ==> JobsOf(arrivals) == JobsOf(arrivals[1..]);
    }
  }

  predicate AllFaithful(e: Engine, jobs: seq<Job>, replies: seq<Reply>) {
    |replies| == |jobs| && forall k :: 0 <= k < |jobs| ==> IsFaithful(e, jobs[k], replies[k])
  }

  predicate IsFaithful(e: Engine, job: Job, reply: Reply) {
    reply == Sent(FreshAnswer(e, job)) || (job.buildFails && reply == Sent(Failure(Inference)))
  }

  /** The one worker the pool gives no deadline. */
  const HEAD := EmbedPool.Place(EmbedPool.Interactive, 0)

  predicate NeverFails(e: Engine, jobs: seq<Job>) {
    forall k :: 0 <= k < |jobs| ==> FreshAnswer(e, jobs[k]).Success? || IsCancelled(FreshAnswer(e, jobs[k]))
  }

  /**
   * The first interactive worker, once warm, stays so through any idle spells exactly as
   * long as no job really fails.
   */
  lemma {:induction false} HotWorkerStaysHot(e: Engine, arrivals: seq<Arrival>)
    ensures StaysWarm(e, HEAD, true, arrivals) <==> NeverFails(e, JobsOf(arrivals))
    decreases |arrivals|
  {
    if arrivals != [] {
      var jobs, rest := JobsOf(arrivals), JobsOf(arrivals[1..]);
      HotWorkerStaysHot(e, arrivals[1..]);
      if arrivals[0].Deliver? {
        assert jobs[0] == arrivals[0].job;
        assert forall k :: 0 <= k < |rest| ==> rest[k] == jobs[k + 1];
        assert NeverFails(e, jobs) <==>
               (FreshAnswer(e, jobs[0]).Success? || IsCancelled(FreshAnswer(e, jobs[0]))) && NeverFails(e, rest);
      } else {
        assert jobs == rest;
      }
    }
  }

  /** Every other worker goes cold at its first deadline. */
  lemma OnlyTheHeadStaysHot(e: Engine, at: EmbedPool.Place)
    ensures StaysWarm(e, at, true, [Timeout]) <==> at == HEAD
  {
    assert [Timeout][1..] == [];
  }

  predicate StaysWarm(e: Engine, at: EmbedPool.Place, isWarm: bool, arrivals: seq<Arrival>) {
    isWarm && (arrivals == [] || StaysWarm(e, at, IsWarmAfter(e, at, isWarm, arrivals[0]), arrivals[1..]))
  }

  /** One turn of the loop with a job in hand. */
  method ServeJob(ctx: Context?, batch: Batch, e: Engine, job: Job) returns (kept: Context?, answer: Answer)
    requires (ctx != null ==> ctx.Usable()) && batch.capacity == e.cap
    modifies ctx, batch
    ensures answer == AnswerFor(e, job, ctx != null)
    ensures answer == if ctx == null && job.buildFails then Failure(Inference) else FreshAnswer(e, job)
    ensures (kept != null) == IsKept(e, ctx != null, job)
    ensures kept != null <==> (ctx != null || !job.buildFails) && (answer.Success? || answer.error.Cancelled?)
    ensures kept != null ==> kept.Usable() && (kept == ctx || fresh(kept))
  {
    kept := ctx;
    if kept == null {
      if job.buildFails { return null, Failure(Inference); }
      kept := new Context();
    }
    answer := RunJob(kept, batch, e, job);
    if answer.Failure? && !IsCancelled(answer) { kept := null; }
  }

  /** The loop proper, from its first wait to the channel's close. */
  method ServeAll(e: Engine, at: EmbedPool.Place, arrivals: seq<Arrival>) returns (replies: seq<Reply>)
    ensures replies == Replies(e, at, false, arrivals)
  {
    var ctx: Context? := null;
    var batch := new Batch(e.cap);
    var left := arrivals;
    replies := [];
    ghost var whole := Replies(e, at, false, arrivals);
    while left != []
      invariant ctx != null ==> ctx.Usable() && fresh(ctx)
      invariant whole == replies + Replies(e, at, ctx != null, left)
      decreases |left|
    {
      match left[0] {
        case Timeout =>
          if ctx != null && EmbedPool.IsIdleDropped(at) { ctx := null; }
        case Deliver(job) =>
          var answer;
          ctx, answer := ServeJob(ctx, batch, e, job);
          replies := replies + [Sent(answer)];
      }
      left := left[1..];
    }
  }

  /**
   * `worker_loop`: one reply for each job, in order, each the answer of a context
   * newly built for it unless that build fails. Without a backend every reply is
   * dropped.
   */
  method WorkerLoop(e: Engine, hasBackend: bool, at: EmbedPool.Place, arrivals: seq<Arrival>)
    returns (replies: seq<Reply>)
    ensures hasBackend ==> replies == Replies(e, at, false, arrivals) && AllFaithful(e, JobsOf(arrivals), replies)
    ensures !hasBackend ==> replies == seq(|JobsOf(arrivals)|, _ => Dropped)
  {
    if !hasBackend {
      replies := seq(|JobsOf(arrivals)|, _ => Dropped);
      return;
    }
    replies := ServeAll(e, at, arrivals);
    WarmIsFresh(e, at, false, arrivals);
  }
}
