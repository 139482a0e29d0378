/**
 * The embedder end to end: the pool's workers, each running the worker's loop,
 * so that what a caller gets back for its job is an embedding of that job.
 */
module EmbedService {
  import opened Wrappers
  import opened EmbedPool
  import EmbedWorker

  type Job = EmbedWorker.Job
  type Answer = EmbedWorker.Answer
  type Arrival = EmbedWorker.Arrival

  /** The engine, and the job behind each id the pool passes around. */
  datatype Config = Config(engine: EmbedWorker.Engine, jobs: nat -> Job)

  /** The pool, what each worker's waits have returned so far, and the answers sent. */
  datatype Service = Service(pool: Pool, log: map<Place, seq<Arrival>>, answers: map<nat, Answer>)

  /** A step of the pool, or a worker's wait running into its deadline. */
  datatype Move = Of(step: Step) | Idle(at: Place)

  predicate CanMove(s: Service, m: Move) {
    match m
    case Of(step) => Enabled(s.pool, step)
    case Idle(at) => at in s.pool.workers && s.pool.workers[at].status == Running && s.pool.workers[at].current.None?
  }

  /** The answer a worker whose waits returned `log` gives to the job it holds. */
  function AnswerOf(c: Config, at: Place, log: seq<Arrival>, job: nat): Answer {
    EmbedWorker.AnswerFor(c.engine, c.jobs(job), EmbedWorker.WarmAfter(c.engine, at, false, log))
  }

  ghost predicate IsTracked(s: Service) { Inv(s.pool) && s.log.Keys == s.pool.workers.Keys }

  ghost function Moved(c: Config, s: Service, m: Move): Service
    requires IsTracked(s) && CanMove(s, m)
  {
    match m
    case Idle(at) => s.(log := s.log[at := s.log[at] + [EmbedWorker.Timeout]])
    case Of(Reply(at)) =>
      var job := s.pool.workers[at].current.value;
      Service(Next(s.pool, Reply(at)), s.log[at := s.log[at] + [EmbedWorker.Deliver(c.jobs(job))]],
              s.answers[job := AnswerOf(c, at, s.log[at], job)])
    case Of(step) => s.(pool := Next(s.pool, step))
  }

  function JobList(c: Config, ids: seq<nat>): (jobs: seq<Job>)
    ensures |jobs| == |ids|
  {
    seq(|ids|, i requires 0 <= i < |ids| => c.jobs(ids[i]))
  }

  /** A worker has sent the replies its loop gives, one for each job it answered, in order. */
  ghost predicate RunsItsLoop(c: Config, at: Place, log: seq<Arrival>, answered: seq<nat>, answers: map<nat, Answer>) {
    var replies := EmbedWorker.Replies(c.engine, at, false, log);
    && EmbedWorker.JobsOf(log) == JobList(c, answered)
    && |replies| == |answered|
    && forall k :: 0 <= k < |answered| ==> IsReplyTo(replies[k], answered[k], answers)
  }

  predicate IsReplyTo(reply: EmbedWorker.Reply, job: nat, answers: map<nat, Answer>) {
    job in answers && reply == EmbedWorker.Sent(answers[job])
  }

  ghost predicate AllRunLoops(c: Config, s: Service)
    requires s.log.Keys == s.pool.workers.Keys
  {
    forall at :: at in s.pool.workers ==> RunsItsLoop(c, at, s.log[at], s.pool.workers[at].answered, s.answers)
  }

  /** A job is answered by no worker but the one it was placed on. */
  predicate IsAnswered(p: Pool, job: nat) {
    job in p.placed && p.placed[job] in p.workers && job in p.workers[p.placed[job]].answered
  }

  predicate AllAnswered(s: Service) { forall job :: job in s.answers ==> IsAnswered(s.pool, job) }

  ghost predicate ServiceInv(c: Config, s: Service) { IsTracked(s) && AllRunLoops(c, s) && AllAnswered(s) }

  // ---------------------------------------------------------------- one move

  lemma JobListGrows(c: Config, ids: seq<nat>, id: nat)
    ensures JobList(c, ids + [id]) == JobList(c, ids) + [c.jobs(id)]
  {
  }

  /** One turn of a worker's own loop. */
  lemma LoopReplies(c: Config, at: Place, log: seq<Arrival>, answered: seq<nat>, answers: map<nat, Answer>, job: nat)
    requires RunsItsLoop(c, at, log, answered, answers) && job !in answered
    ensures RunsItsLoop(c, at, log + [EmbedWorker.Deliver(c.jobs(job))], answered + [job],
                        answers[job := AnswerOf(c, at, log, job)])
  {
    EmbedWorker.OneMore(c.engine, at, false, log, EmbedWorker.Deliver(c.jobs(job)));
    JobListGrows(c, answered, job);
    LoopKeeps(c, at, log, answered, answers, job, AnswerOf(c, at, log, job));
  }

  /** An answer to some other worker's job. */
  lemma LoopKeeps(c: Config, at: Place, log: seq<Arrival>, answered: seq<nat>, answers: map<nat, Answer>,
                  job: nat, answer: Answer)
    requires RunsItsLoop(c, at, log, answered, answers) && job !in answered
    ensures RunsItsLoop(c, at, log, answered, answers[job := answer])
  {
    var replies := EmbedWorker.Replies(c.engine, at, false, log);
    forall k | 0 <= k < |answered| ensures IsReplyTo(replies[k], answered[k], answers[job := answer]) {
      assert answered[k] in answered;
      assert IsReplyTo(replies[k], answered[k], answers);
    }
  }

  lemma LoopIdles(c: Config, at: Place, log: seq<Arrival>, answered: seq<nat>, answers: map<nat, Answer>)
    requires RunsItsLoop(c, at, log, answered, answers)
    ensures RunsItsLoop(c, at, log + [EmbedWorker.Timeout], answered, answers)
  {
    EmbedWorker.OneMore(c.engine, at, false, log, EmbedWorker.Timeout);
  }

  /** A step takes no worker away, no answer back, and moves no job that has been placed. */
  ghost predicate OnlyAdds(p: Pool, p': Pool) {
    && p'.workers.Keys == p.workers.Keys
    && forall j :: j in p.placed ==> j in p'.placed && p'.placed[j] == p.placed[j]
  }

  predicate SameAnswered(p: Pool, p': Pool, o: Place)
    requires o in p.workers && o in p'.workers
  {
    p'.workers[o].answered == p.workers[o].answered
  }

  lemma DispatchAnswersNothing(p: Pool, job: nat, lane: Lane)
    requires Inv(p) && Enabled(p, Dispatch(job, lane))
    ensures var p' := Dispatched(p, job, lane);
            OnlyAdds(p, p') && forall o :: o in p.workers ==> SameAnswered(p, p', o)
  {
    DispatchMeans(p, job, lane);
  }

  lemma OwnStepAnswers(p: Pool, s: Step)
    requires WellFormed(p) && Enabled(p, s) && !s.Dispatch?
    ensures OnlyAdds(p, Next(p, s))
    ensures !s.Reply? ==> forall o :: o in p.workers ==> SameAnswered(p, Next(p, s), o)
  {
  }

  lemma QuietStep(c: Config, s: Service, step: Step)
    requires ServiceInv(c, s) && Enabled(s.pool, step) && !step.Reply?
    ensures ServiceInv(c, Moved(c, s, Of(step)))
  {
    NextInv(s.pool, step);
    if step.Dispatch? { DispatchAnswersNothing(s.pool, step.job, step.lane); } else { OwnStepAnswers(s.pool, step); }
    SameAnswers(c, s, Next(s.pool, step));
  }

  lemma SameAnswers(c: Config, s: Service, p: Pool)
    requires ServiceInv(c, s) && Inv(p) && OnlyAdds(s.pool, p)
    requires forall o :: o in p.workers ==> SameAnswered(s.pool, p, o)
    ensures ServiceInv(c, s.(pool := p))
  {
    forall o | o in p.workers ensures RunsItsLoop(c, o, s.log[o], p.workers[o].answered, s.answers) {
      assert SameAnswered(s.pool, p, o);
    }
    forall job | job in s.answers ensures IsAnswered(p, job) {
      assert IsAnswered(s.pool, job) && SameAnswered(s.pool, p, s.pool.placed[job]);
    }
  }

  lemma HeldWasSent(w: Worker)
    requires KeepsOrder(w) && w.current.Some?
    ensures w.current.value in w.sent && w.current.value !in w.answered
  {
    var done := w.answered + w.dropped;
    assert w.sent[|done|] == w.current.value;
    forall k | 0 <= k < |w.answered| ensures w.answered[k] != w.current.value { assert w.sent[k] == w.answered[k]; }
  }

  lemma AnsweredWasSent(w: Worker, job: nat)
    requires KeepsOrder(w) && job in w.answered
    ensures job in w.sent
  {
    var k :| 0 <= k < |w.answered| && w.answered[k] == job;
    assert w.sent[k] == job;
  }

  /** The job a worker holds is its own and has not been answered by anyone. */
  lemma HeldIsUnanswered(p: Pool, at: Place, o: Place)
    requires Inv(p) && at in p.workers && p.workers[at].current.Some? && o in p.workers
    ensures var job := p.workers[at].current.value;
            job in p.placed && p.placed[job] == at && job !in p.workers[o].answered
  {
    var job := p.workers[at].current.value;
    assert KeepsOrder(p.workers[at]) && SentWherePlaced(p, at) && KeepsOrder(p.workers[o]) && SentWherePlaced(p, o);
    HeldWasSent(p.workers[at]);
    if job in p.workers[o].answered { AnsweredWasSent(p.workers[o], job); }
  }

  /** A reply is the first and only one its job gets. */
  lemma AnsweredOnce(c: Config, s: Service, at: Place)
    requires ServiceInv(c, s) && Enabled(s.pool, Reply(at))
    ensures s.pool.workers[at].current.value !in s.answers
  {
    var job := s.pool.workers[at].current.value;
    HeldIsUnanswered(s.pool, at, at);
    assert job in s.answers ==> IsAnswered(s.pool, job);
  }

  lemma LoopsAfterReply(c: Config, s: Service, at: Place)
    requires ServiceInv(c, s) && Enabled(s.pool, Reply(at))
    ensures AllRunLoops(c, Moved(c, s, Of(Reply(at))))
  {
    var s' := Moved(c, s, Of(Reply(at)));
    var job := s.pool.workers[at].current.value;
    forall o | o in s'.pool.workers
      ensures RunsItsLoop(c, o, s'.log[o], s'.pool.workers[o].answered, s'.answers)
    {
      HeldIsUnanswered(s.pool, at, o);
      var w := s.pool.workers[o];
      if o == at {
        LoopReplies(c, at, s.log[at], w.answered, s.answers, job);
      } else {
        LoopKeeps(c, o, s.log[o], w.answered, s.answers, job, AnswerOf(c, at, s.log[at], job));
      }
    }
  }

  lemma StaysAnswered(p: Pool, at: Place, job: nat)
    requires at in p.workers && p.workers[at].current.Some?
    requires IsAnswered(p, job) || (job in p.placed && p.placed[job] == at && p.workers[at].current.value == job)
    ensures IsAnswered(Put(p, at, Replied(p.workers[at])), job)
  {
  }

  lemma AnsweredAfterReply(c: Config, s: Service, at: Place)
    requires ServiceInv(c, s) && Enabled(s.pool, Reply(at))
    ensures AllAnswered(Moved(c, s, Of(Reply(at))))
  {
    var s' := Moved(c, s, Of(Reply(at)));
    HeldIsUnanswered(s.pool, at, at);
    forall job | job in s'.answers ensures IsAnswered(s'.pool, job) {
      assert job in s.answers ==> IsAnswered(s.pool, job);
      StaysAnswered(s.pool, at, job);
    }
  }

  lemma ReplyMove(c: Config, s: Service, at: Place)
    requires ServiceInv(c, s) && Enabled(s.pool, Reply(at))
    ensures ServiceInv(c, Moved(c, s, Of(Reply(at))))
  {
    NextInv(s.pool, Reply(at));
    LoopsAfterReply(c, s, at);
    AnsweredAfterReply(c, s, at);
  }

  lemma IdleMove(c: Config, s: Service, at: Place)
    requires ServiceInv(c, s) && CanMove(s, Idle(at))
    ensures ServiceInv(c, Moved(c, s, Idle(at)))
  {
    LoopIdles(c, at, s.log[at], s.pool.workers[at].answered, s.answers);
  }

  /** Every move of every interleaving keeps each worker's replies its own loop's. */
  lemma MoveInv(c: Config, s: Service, m: Move)
    requires ServiceInv(c, s) && CanMove(s, m)
    ensures ServiceInv(c, Moved(c, s, m))
  {
    match m
    case Idle(at) => IdleMove(c, s, at);
    case Of(step) => if step.Reply? { ReplyMove(c, s, step.at); } else { QuietStep(c, s, step); }
  }

  // -------------------------------------------------------------- whole runs

  ghost function NewService(c: Config, interactive: nat, bulk: nat): (s: Service)
    ensures ServiceInv(c, s)
  {
    var p := NewPool(interactive, bulk);
    Service(p, map at | at in p.workers :: [], map[])
  }

  ghost predicate IsServiceRun(c: Config, s: Service, moves: seq<Move>)
    requires ServiceInv(c, s)
    decreases |moves|
  {
    if moves == [] then true
    else if !CanMove(s, moves[0]) then false
    else
      MoveInv(c, s, moves[0]);
      IsServiceRun(c, Moved(c, s, moves[0]), moves[1..])
  }

  ghost function Served(c: Config, s: Service, moves: seq<Move>): (s': Service)
    requires ServiceInv(c, s) && IsServiceRun(c, s, moves)
    ensures ServiceInv(c, s')
    decreases |moves|
  {
    if moves == [] then s
    else
      MoveInv(c, s, moves[0]);
      Served(c, Moved(c, s, moves[0]), moves[1..])
  }

  /** The pool's share of a run. */
  function PoolSteps(moves: seq<Move>): seq<Step> {
    if moves == [] then []
    else (match moves[0] case Of(step) => [step] case Idle(_) => []) + PoolSteps(moves[1..])
  }

  lemma {:induction false} SameSteps(moves: seq<Move>, step: Step)
    ensures step in PoolSteps(moves) <==> Of(step) in moves
  {
    if moves != [] {
      SameSteps(moves[1..], step);
      assert moves == [moves[0]] + moves[1..];
    }
  }

  /** Seen from the pool, a run of the service is a run of the pool. */
  lemma {:induction false} PoolRuns(c: Config, s: Service, moves: seq<Move>)
    requires ServiceInv(c, s) && IsServiceRun(c, s, moves)
    ensures IsRun(s.pool, PoolSteps(moves)) && Ran(s.pool, PoolSteps(moves)) == Served(c, s, moves).pool
    decreases |moves|
  {
    if moves != [] {
      var s' := Moved(c, s, moves[0]);
      MoveInv(c, s, moves[0]);
      PoolRuns(c, s', moves[1..]);
      var rest := PoolSteps(moves[1..]);
      if moves[0].Of? {
        assert ([moves[0].step] + rest)[0] == moves[0].step && ([moves[0].step] + rest)[1..] == rest;
      } else {
        assert [] + rest == rest;
      }
    }
  }

  lemma ReplyIsFaithful(c: Config, s: Service, job: nat)
    requires ServiceInv(c, s) && job in s.answers
    ensures EmbedWorker.IsFaithful(c.engine, c.jobs(job), EmbedWorker.Sent(s.answers[job]))
  {
    assert IsAnswered(s.pool, job);
    var at := s.pool.placed[job];
    var answered := s.pool.workers[at].answered;
    var k :| 0 <= k < |answered| && answered[k] == job;
    assert IsReplyTo(EmbedWorker.Replies(c.engine, at, false, s.log[at])[k], job, s.answers);
    EmbedWorker.WarmIsFresh(c.engine, at, false, s.log[at]);
    assert JobList(c, answered)[k] == c.jobs(job);
  }

  /**
   * Whatever was queued, cancelled, failed or idled around it, an answer sent in
   * any run is the one a context newly built for that very job would give, unless
   * that build fails; and each worker has sent exactly what its loop returns on
   * the arrivals the run gave it.
   */
  lemma AnswersAreFresh(c: Config, interactive: nat, bulk: nat, moves: seq<Move>)
    requires IsServiceRun(c, NewService(c, interactive, bulk), moves)
    ensures var s := Served(c, NewService(c, interactive, bulk), moves);
            && (forall job :: job in s.answers ==>
                  EmbedWorker.IsFaithful(c.engine, c.jobs(job), EmbedWorker.Sent(s.answers[job])))
            && (forall at :: at in s.pool.workers ==>
                  at in s.log && RunsItsLoop(c, at, s.log[at], s.pool.workers[at].answered, s.answers))
  {
    var s := Served(c, NewService(c, interactive, bulk), moves);
    forall job | job in s.answers
      ensures EmbedWorker.IsFaithful(c.engine, c.jobs(job), EmbedWorker.Sent(s.answers[job]))
    {
      ReplyIsFaithful(c, s, job);
    }
  }

  /**
   * Over every run that closes the pool and ends with its workers gone, a caller
   * has an answer exactly when its job went to a worker that started with a
   * backend, and then it is that job's own embedding or its failure.
   */
  lemma CallersAreServed(c: Config, interactive: nat, bulk: nat, moves: seq<Move>, job: nat)
    requires IsServiceRun(c, NewService(c, interactive, bulk), moves)
    ensures var s := Served(c, NewService(c, interactive, bulk), moves);
            !s.pool.isOpen && AllGone(s.pool) && job in s.pool.placed ==>
            && (job in s.answers <==> Of(Start(s.pool.placed[job], true)) in moves)
            && (job in s.answers ==>
                  EmbedWorker.IsFaithful(c.engine, c.jobs(job), EmbedWorker.Sent(s.answers[job])))
  {
    var s0 := NewService(c, interactive, bulk);
    var s := Served(c, s0, moves);
    if !s.pool.isOpen && AllGone(s.pool) && job in s.pool.placed {
      PoolRuns(c, s0, moves);
      ClosingServesAll(interactive, bulk, PoolSteps(moves), job);
      SameSteps(moves, Start(s.pool.placed[job], true));
      AnsweredIffServed(c, s, job);
      if job in s.answers { ReplyIsFaithful(c, s, job); }
    }
  }

  lemma AnsweredIffServed(c: Config, s: Service, job: nat)
    requires ServiceInv(c, s) && job in s.pool.placed && s.pool.placed[job] in s.pool.workers
    ensures job in s.answers <==> job in s.pool.workers[s.pool.placed[job]].answered
  {
    var at := s.pool.placed[job];
    if job in s.answers { assert IsAnswered(s.pool, job); }
    if job in s.pool.workers[at].answered {
      var k :| 0 <= k < |s.pool.workers[at].answered| && s.pool.workers[at].answered[k] == job;
      assert IsReplyTo(EmbedWorker.Replies(c.engine, at, false, s.log[at])[k], job, s.answers);
    }
  }
}
