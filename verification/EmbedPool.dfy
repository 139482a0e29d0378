/** The embedder's worker pool (embedder_llama.rs `WorkerPool`). */
module EmbedPool {
  import opened Wrappers
  import opened Sets

  // Two lanes of workers, a queue for each worker, and any number of callers
  // dispatching at once. `busy` flags are written by callers and workers with no
  // lock between them, so nothing here is proved from what they say.

  datatype Lane = Interactive | Bulk

  datatype Place = Place(lane: Lane, index: nat)

  // ------------------------------------------------------------ pure choices

  /** `effective_lane`: a lane with no workers hands over to the other. */
  function EffectiveLane(requested: Lane, interactive: nat, bulk: nat): Lane {
    if requested == Interactive && interactive == 0 then Bulk
    else if requested == Bulk && bulk == 0 then Interactive
    else requested
  }

  /** `WorkerPool::new`: never no worker at all. */
  function BulkSize(bulk: nat, interactive: nat): nat { if bulk + interactive == 0 then 1 else bulk }

  /** `worker_idle_timeout`: only the head of the interactive lane waits without a deadline. */
  predicate IsIdleDropped(p: Place) { p != Place(Interactive, 0) }

  const USIZE: nat := 0x1_0000_0000_0000_0000

  /** Index of the first idle worker, or the number of workers. */
  function FirstIdle(busy: seq<bool>): (i: nat)
    ensures i <= |busy| && (forall k :: 0 <= k < i ==> busy[k]) && (i < |busy| ==> !busy[i])
  {
    if busy == [] || !busy[0] then 0 else 1 + FirstIdle(busy[1..])
  }

  /** `claim_worker`: the worker, the flags and the rotation counter after the claim. */
  function Claimed(busy: seq<bool>, counter: nat): (nat, seq<bool>, nat)
    requires busy != []
  {
    var i := FirstIdle(busy);
    if i < |busy| then (i, busy[i := true], counter) else (counter % |busy|, busy, (counter + 1) % USIZE)
  }

  /** `worker` is the least index whose flag is clear. */
  predicate IsFirstIdle(busy: seq<bool>, worker: nat) {
    worker < |busy| && !busy[worker] && forall k :: 0 <= k < worker ==> busy[k]
  }

  /**
   * A claim, told from the flags and the counter before it: the first idle worker
   * if there is one, whose flag alone is then set; else the next by rotation.
   */
  predicate Claims(busy: seq<bool>, counter: nat, worker: nat, busy': seq<bool>, counter': nat) {
    if exists k :: 0 <= k < |busy| && !busy[k]
    then IsFirstIdle(busy, worker) && busy' == busy[worker := true] && counter' == counter
    else
      && |busy| > 0 && worker == counter % |busy| && busy' == busy
      && counter' == (counter + 1) % 0x1_0000_0000_0000_0000
  }

  lemma ClaimedClaims(busy: seq<bool>, counter: nat)
    requires busy != []
    ensures var (worker, busy', counter') := Claimed(busy, counter); Claims(busy, counter, worker, busy', counter')
  {
  }

  // -------------------------------------------------------------- the states

  datatype Status = Starting | Running | Gone

  /** Jobs are ids. `sent`, `answered` and `dropped` are history. */
  datatype Worker = Worker(
    status: Status, busy: bool, queue: seq<nat>, current: Option<nat>,
    sent: seq<nat>, answered: seq<nat>, dropped: seq<nat>)

  const NEW_WORKER := Worker(Starting, false, [], None, [], [], [])

  /**
   * `claims` are callers that have picked a worker and not yet sent; `placed` and
   * `requested` record every dispatch.
   */
  datatype Pool = Pool(
    interactive: nat, bulk: nat, workers: map<Place, Worker>, counters: map<Lane, nat>, isOpen: bool,
    claims: map<nat, Place>, placed: map<nat, Place>, requested: map<nat, Lane>)

  function Size(p: Pool, lane: Lane): nat { if lane == Interactive then p.interactive else p.bulk }

  predicate IsPlace(interactive: nat, bulk: nat, at: Place) {
    at.index < if at.lane == Interactive then interactive else bulk
  }

  ghost function NewPool(interactive: nat, bulk: nat): (p: Pool)
    ensures Inv(p)
  {
    var b := BulkSize(bulk, interactive);
    var places := (set i | 0 <= i < interactive :: Place(Interactive, i)) + (set i | 0 <= i < b :: Place(Bulk, i));
    var workers := map at | at in places :: NEW_WORKER;
    Pool(interactive, b, workers, map[Interactive := 0, Bulk := 0], true, map[], map[], map[])
  }

  ghost predicate WellFormed(p: Pool) {
    && p.interactive + p.bulk > 0
    && (forall at :: at in p.workers <==> IsPlace(p.interactive, p.bulk, at))
    && Interactive in p.counters && Bulk in p.counters
  }

  function Flags(p: Pool, lane: Lane): (busy: seq<bool>)
    requires WellFormed(p)
    ensures |busy| == Size(p, lane)
  {
    seq(Size(p, lane), i requires 0 <= i < Size(p, lane) => p.workers[Place(lane, i)].busy)
  }

  // --------------------------------------------------------------- the steps

  datatype Step =
    | Dispatch(job: nat, lane: Lane)
    | Send(job: nat)
    | Start(at: Place, hasBackend: bool)
    | Receive(at: Place)
    | SetFlag(at: Place, busy: bool)
    | Reply(at: Place)
    | Close
    | Exit(at: Place)

  predicate Enabled(p: Pool, s: Step) {
    match s
    case Dispatch(job, _) => p.isOpen && job !in p.placed
    case Send(job) => job in p.claims && p.claims[job] in p.workers
    case Start(at, _) => at in p.workers && p.workers[at].status == Starting
    case Receive(at) =>
      at in p.workers && p.workers[at].status == Running && p.workers[at].current.None? && p.workers[at].queue != []
    case SetFlag(at, _) => at in p.workers
    case Reply(at) => at in p.workers && p.workers[at].current.Some?
    case Close => p.isOpen && p.claims == map[]
    case Exit(at) =>
      at in p.workers && !p.isOpen && p.workers[at].status == Running && p.workers[at].current.None? &&
      p.workers[at].queue == []
  }

  /** A worker with no backend is gone at once, and what its queue held is dropped with it. */
  function Started(w: Worker, hasBackend: bool): Worker {
    if hasBackend then w.(status := Running) else w.(status := Gone, dropped := w.dropped + w.queue, queue := [])
  }

  function Given(w: Worker, job: nat): Worker {
    var w' := w.(sent := w.sent + [job]);
    if w.status == Gone then w'.(dropped := w.dropped + [job]) else w'.(queue := w.queue + [job])
  }

  function Received(w: Worker): Worker
    requires w.queue != []
  {
    w.(current := Some(w.queue[0]), queue := w.queue[1..])
  }

  function Replied(w: Worker): Worker
    requires w.current.Some?
  {
    w.(answered := w.answered + [w.current.value], current := None)
  }

  function Put(p: Pool, at: Place, w: Worker): Pool { p.(workers := p.workers[at := w]) }

  function Dispatched(p: Pool, job: nat, requested: Lane): Pool
    requires WellFormed(p)
  {
    var lane := EffectiveLane(requested, p.interactive, p.bulk);
    var (i, busy, counter) := Claimed(Flags(p, lane), p.counters[lane]);
    var at := Place(lane, i);
    Put(p, at, p.workers[at].(busy := busy[i])).(
      counters := p.counters[lane := counter],
      claims := p.claims[job := at], placed := p.placed[job := at], requested := p.requested[job := requested])
  }

  function Next(p: Pool, s: Step): Pool
    requires WellFormed(p) && Enabled(p, s)
  {
    match s
    case Dispatch(job, lane) => Dispatched(p, job, lane)
    case Send(job) => Put(p, p.claims[job], Given(p.workers[p.claims[job]], job)).(claims := p.claims - {job})
    case Start(at, hasBackend) => Put(p, at, Started(p.workers[at], hasBackend))
    case Receive(at) => Put(p, at, Received(p.workers[at]))
    case SetFlag(at, busy) => Put(p, at, p.workers[at].(busy := busy))
    case Reply(at) => Put(p, at, Replied(p.workers[at]))
    case Close => p.(isOpen := false)
    case Exit(at) => Put(p, at, p.workers[at].(status := Gone))
  }

  // ----------------------------------------------------------- the invariant

  function InHand(w: Worker): seq<nat> { if w.current.Some? then [w.current.value] else [] }

  /** What was sent to a worker is what it answered, then what it dropped, holds and has queued, in the order sent. */
  predicate KeepsOrder(w: Worker) {
    && w.sent == w.answered + w.dropped + InHand(w) + w.queue
    && Distinct(w.sent)
    && (w.answered == [] || w.dropped == [])
    && (w.status == Starting ==> w.answered == [] && w.dropped == [] && w.current.None?)
    && (w.status == Running ==> w.dropped == [])
    && (w.status == Gone ==> w.queue == [] && w.current.None?)
  }

  /** Every job sent is at the one place its dispatch chose. */
  ghost predicate SentWherePlaced(p: Pool, at: Place)
    requires at in p.workers
  {
    forall job :: job in p.workers[at].sent <==> job in p.placed && p.placed[job] == at && job !in p.claims
  }

  predicate InItsLane(p: Pool, job: nat)
    requires job in p.placed
  {
    && job in p.requested && p.placed[job] in p.workers
    && p.placed[job].lane == EffectiveLane(p.requested[job], p.interactive, p.bulk)
    && (job in p.claims ==> p.claims[job] == p.placed[job])
  }

  predicate AllKeepOrder(p: Pool) { forall at :: at in p.workers ==> KeepsOrder(p.workers[at]) }

  ghost predicate AllSentWherePlaced(p: Pool) { forall at :: at in p.workers ==> SentWherePlaced(p, at) }

  predicate AllInLane(p: Pool) { forall job :: job in p.placed ==> InItsLane(p, job) }

  ghost predicate Inv(p: Pool) {
    && WellFormed(p)
    && p.claims.Keys <= p.placed.Keys
    && AllKeepOrder(p)
    && AllSentWherePlaced(p)
    && AllInLane(p)
    && (!p.isOpen ==> p.claims == map[])
    && (p.isOpen ==> forall at :: at in p.workers && p.workers[at].status == Gone ==> p.workers[at].answered == [])
  }

  lemma PutInv(p: Pool, at: Place, w: Worker)
    requires Inv(p) && at in p.workers && KeepsOrder(w) && w.sent == p.workers[at].sent
    requires p.isOpen && w.status == Gone ==> w.answered == []
    ensures Inv(Put(p, at, w))
  {
    var p' := Put(p, at, w);
    forall o | o in p'.workers ensures SentWherePlaced(p', o) { assert SentWherePlaced(p, o); }
    forall job | job in p'.placed ensures InItsLane(p', job) { assert InItsLane(p, job); }
  }

  lemma ReceivedKeepsOrder(w: Worker)
    requires KeepsOrder(w) && w.status == Running && w.current.None? && w.queue != []
    ensures KeepsOrder(Received(w))
  {
    var done := w.answered + w.dropped;
    assert w.queue == [w.queue[0]] + w.queue[1..];
    assert done + [] + w.queue == done + [w.queue[0]] + w.queue[1..];
  }

  lemma RepliedKeepsOrder(w: Worker)
    requires KeepsOrder(w) && w.current.Some?
    ensures KeepsOrder(Replied(w))
  {
    var job := w.current.value;
    assert w.dropped == [];
    assert w.answered + [] + [job] + w.queue == (w.answered + [job]) + [] + [] + w.queue;
  }

  lemma GivenKeepsOrder(w: Worker, job: nat)
    requires KeepsOrder(w) && job !in w.sent && (w.status == Gone ==> w.answered == [])
    ensures KeepsOrder(Given(w, job))
  {
    var done := w.answered + w.dropped;
    if w.status == Gone {
      assert InHand(w) == [] && w.queue == [];
      assert done + [] + [] + [job] == w.answered + (w.dropped + [job]) + [] + [];
    } else {
      assert done + InHand(w) + (w.queue + [job]) == w.sent + [job];
    }
  }

  /** Dispatching changes no worker but the chosen one's flag. */
  lemma DispatchMeans(p: Pool, job: nat, lane: Lane)
    requires Inv(p) && Enabled(p, Dispatch(job, lane))
    ensures var p' := Dispatched(p, job, lane);
            var at := p'.placed[job];
            && at in p.workers && at.lane == EffectiveLane(lane, p.interactive, p.bulk)
            && p' == p.(workers := p.workers[at := p.workers[at].(busy := p'.workers[at].busy)],
                        counters := p'.counters, claims := p.claims[job := at],
                        placed := p.placed[job := at], requested := p.requested[job := lane])
            && Interactive in p'.counters && Bulk in p'.counters
  {
    var eff := EffectiveLane(lane, p.interactive, p.bulk);
    var i := Claimed(Flags(p, eff), p.counters[eff]).0;
    assert IsPlace(p.interactive, p.bulk, Place(eff, i));
    assert Place(eff, i) in p.workers;
  }

  lemma FlagsAfter(p: Pool, p': Pool, at: Place, flag: bool, lane: Lane)
    requires WellFormed(p) && WellFormed(p') && at in p.workers
    requires p'.interactive == p.interactive && p'.bulk == p.bulk
    requires p'.workers == p.workers[at := p.workers[at].(busy := flag)]
    ensures at.index < Size(p, at.lane)
    ensures Flags(p', lane) == if lane == at.lane then Flags(p, lane)[at.index := flag] else Flags(p, lane)
  {
  }

  lemma DispatchedClaim(p: Pool, job: nat, lane: Lane)
    requires Inv(p) && Enabled(p, Dispatch(job, lane))
    ensures var p', eff := Dispatched(p, job, lane), EffectiveLane(lane, p.interactive, p.bulk);
            && Flags(p, eff) != []
            && var (i, busy, counter) := Claimed(Flags(p, eff), p.counters[eff]);
               && i < |busy| && p'.placed[job] == Place(eff, i) && busy == Flags(p, eff)[i := busy[i]]
               && p'.workers == p.workers[Place(eff, i) := p.workers[Place(eff, i)].(busy := busy[i])]
               && p'.counters == p.counters[eff := counter]
  {
    DispatchMeans(p, job, lane);
  }

  /** A dispatch claims by the flags and counter of its effective lane, and leaves the other lane's alone. */
  lemma DispatchClaims(p: Pool, job: nat, lane: Lane, other: Lane)
    requires Inv(p) && Enabled(p, Dispatch(job, lane))
    ensures var p' := Next(p, Dispatch(job, lane));
            && WellFormed(p') && job in p'.placed
            && var eff := EffectiveLane(lane, p.interactive, p.bulk);
               && p'.placed[job].lane == eff
               && Claims(Flags(p, eff), p.counters[eff], p'.placed[job].index, Flags(p', eff), p'.counters[eff])
               && (other != eff ==> Flags(p', other) == Flags(p, other) && p'.counters[other] == p.counters[other])
  {
    var p', eff := Dispatched(p, job, lane), EffectiveLane(lane, p.interactive, p.bulk);
    DispatchMeans(p, job, lane);
    DispatchedClaim(p, job, lane);
    var (i, busy, counter) := Claimed(Flags(p, eff), p.counters[eff]);
    FlagsAfter(p, p', Place(eff, i), busy[i], eff);
    FlagsAfter(p, p', Place(eff, i), busy[i], other);
    ClaimedClaims(Flags(p, eff), p.counters[eff]);
  }

  lemma DispatchKeepsOrder(p: Pool, job: nat, lane: Lane)
    requires Inv(p) && Enabled(p, Dispatch(job, lane))
    ensures AllKeepOrder(Dispatched(p, job, lane))
  {
    DispatchMeans(p, job, lane);
    var p' := Dispatched(p, job, lane);
  }

  lemma DispatchSent(p: Pool, job: nat, lane: Lane, o: Place)
    requires Inv(p) && Enabled(p, Dispatch(job, lane)) && o in p.workers && o in Dispatched(p, job, lane).workers
    ensures SentWherePlaced(Dispatched(p, job, lane), o)
  {
    DispatchMeans(p, job, lane);
    assert SentWherePlaced(p, o);
  }

  lemma DispatchInLane(p: Pool, job: nat, lane: Lane)
    requires Inv(p) && Enabled(p, Dispatch(job, lane))
    ensures AllInLane(Dispatched(p, job, lane))
  {
    DispatchMeans(p, job, lane);
    var p' := Dispatched(p, job, lane);
    forall j | j in p'.placed ensures InItsLane(p', j) { assert j != job ==> InItsLane(p, j); }
  }

  lemma DispatchInv(p: Pool, job: nat, lane: Lane)
    requires Inv(p) && Enabled(p, Dispatch(job, lane))
    ensures Inv(Next(p, Dispatch(job, lane)))
  {
    DispatchMeans(p, job, lane);
    DispatchKeepsOrder(p, job, lane);
    DispatchInLane(p, job, lane);
    var p' := Dispatched(p, job, lane);
    forall o | o in p'.workers ensures SentWherePlaced(p', o) { DispatchSent(p, job, lane, o); }
  }

  lemma SendSent(p: Pool, job: nat, o: Place)
    requires Inv(p) && Enabled(p, Send(job)) && o in p.workers
    ensures SentWherePlaced(Next(p, Send(job)), o)
  {
    assert SentWherePlaced(p, o) && InItsLane(p, job);
    var p', at := Next(p, Send(job)), p.claims[job];
    assert o == at ==> p'.workers[o].sent == p.workers[o].sent + [job];
  }

  lemma SendKeepsOrder(p: Pool, job: nat)
    requires Inv(p) && Enabled(p, Send(job))
    ensures AllKeepOrder(Next(p, Send(job)))
  {
    var at := p.claims[job];
    assert SentWherePlaced(p, at) && KeepsOrder(p.workers[at]);
    GivenKeepsOrder(p.workers[at], job);
  }

  lemma SendInLane(p: Pool, job: nat)
    requires Inv(p) && Enabled(p, Send(job))
    ensures AllInLane(Next(p, Send(job)))
  {
    var p' := Next(p, Send(job));
    forall j | j in p'.placed ensures InItsLane(p', j) { assert InItsLane(p, j); }
  }

  lemma SendInv(p: Pool, job: nat)
    requires Inv(p) && Enabled(p, Send(job))
    ensures Inv(Next(p, Send(job)))
  {
    SendKeepsOrder(p, job);
    SendInLane(p, job);
    var p' := Next(p, Send(job));
    forall o | o in p'.workers ensures SentWherePlaced(p', o) { SendSent(p, job, o); }
  }

  /** Every step of every interleaving keeps the invariant. */
  lemma NextInv(p: Pool, s: Step)
    requires Inv(p) && Enabled(p, s)
    ensures Inv(Next(p, s))
  {
    match s
    case Dispatch(job, lane) => DispatchInv(p, job, lane);
    case Send(job) => SendInv(p, job);
    case Start(at, hasBackend) => PutInv(p, at, Started(p.workers[at], hasBackend));
    case Receive(at) => ReceivedKeepsOrder(p.workers[at]); PutInv(p, at, Received(p.workers[at]));
    case SetFlag(at, busy) => PutInv(p, at, p.workers[at].(busy := busy));
    case Reply(at) => RepliedKeepsOrder(p.workers[at]); PutInv(p, at, Replied(p.workers[at]));
    case Close =>
    case Exit(at) => PutInv(p, at, p.workers[at].(status := Gone));
  }

  // ---------------------------------------------------------------- whole runs

  ghost predicate IsRun(p: Pool, steps: seq<Step>)
    requires Inv(p)
    decreases |steps|
  {
    if steps == [] then true
    else if !Enabled(p, steps[0]) then false
    else
      NextInv(p, steps[0]);
      IsRun(Next(p, steps[0]), steps[1..])
  }

  ghost function Ran(p: Pool, steps: seq<Step>): (p': Pool)
    requires Inv(p) && IsRun(p, steps)
    ensures Inv(p')
    decreases |steps|
  {
    if steps == [] then p
    else
      NextInv(p, steps[0]);
      Ran(Next(p, steps[0]), steps[1..])
  }

  /** The job is one caller's to send, or is among one worker's jobs, once, and no other's. */
  ghost predicate IsInOnePlace(p: Pool, job: nat)
    requires job in p.placed && p.placed[job] in p.workers
  {
    var at := p.placed[job];
    && (job in p.claims <==> job !in p.workers[at].sent)
    && (forall o :: o in p.workers && o != at ==> job !in p.workers[o].sent)
    && Distinct(p.workers[at].sent)
  }

  /** Each worker has answered or dropped, in order, a first part of what it was sent, and holds the rest. */
  ghost predicate ServesInOrder(w: Worker) {
    && w.answered + w.dropped <= w.sent
    && Distinct(w.answered + w.dropped)
    && w.sent == (w.answered + w.dropped) + (InHand(w) + w.queue)
  }

  lemma OrderIsServed(w: Worker)
    requires KeepsOrder(w)
    ensures ServesInOrder(w)
  {
    var done, rest := w.answered + w.dropped, InHand(w) + w.queue;
    assert w.sent == done + rest;
    forall i, j | 0 <= i < j < |done| ensures done[i] != done[j] {
      assert w.sent[i] == done[i] && w.sent[j] == done[j];
    }
  }

  /**
   * Whatever interleaves: every dispatched job is in one place of its effective lane,
   * and every worker serves in order.
   */
  lemma JobsAreConserved(interactive: nat, bulk: nat, steps: seq<Step>)
    requires IsRun(NewPool(interactive, bulk), steps)
    ensures var p := Ran(NewPool(interactive, bulk), steps);
            && (forall job :: job in p.placed ==>
                  && p.placed[job] in p.workers && IsInOnePlace(p, job)
                  && job in p.requested && p.placed[job].lane == EffectiveLane(p.requested[job], p.interactive, p.bulk))
            && (forall at :: at in p.workers ==> ServesInOrder(p.workers[at]))
  {
    var p := Ran(NewPool(interactive, bulk), steps);
    forall job | job in p.placed
      ensures p.placed[job] in p.workers && IsInOnePlace(p, job)
    {
      assert InItsLane(p, job);
      forall o | o in p.workers ensures o != p.placed[job] ==> job !in p.workers[o].sent {
        assert SentWherePlaced(p, o);
      }
      assert SentWherePlaced(p, p.placed[job]) && KeepsOrder(p.workers[p.placed[job]]);
    }
    forall at | at in p.workers ensures ServesInOrder(p.workers[at]) { OrderIsServed(p.workers[at]); }
  }

  /** With workers in both lanes, no worker is ever sent a job meant for the other lane. */
  lemma LanesAreIsolated(p: Pool, at: Place, job: nat)
    requires Inv(p) && p.interactive > 0 && p.bulk > 0 && at in p.workers && job in p.workers[at].sent
    ensures job in p.requested && p.requested[job] == at.lane
  {
    assert SentWherePlaced(p, at) && InItsLane(p, job);
  }

  predicate AllGone(p: Pool) { forall at :: at in p.workers ==> p.workers[at].status == Gone }

  /** Once a closed pool's workers are gone, each has answered or dropped all it was sent, one or the other. */
  lemma GoneAccountForAll(p: Pool, job: nat)
    requires Inv(p) && !p.isOpen && AllGone(p) && job in p.placed
    ensures p.placed[job] in p.workers
    ensures var w := p.workers[p.placed[job]];
            && (job in w.answered <==> job !in w.dropped)
            && (w.answered == [] || w.dropped == [])
            && w.answered + w.dropped == w.sent
  {
    assert InItsLane(p, job) && SentWherePlaced(p, p.placed[job]);
    var w := p.workers[p.placed[job]];
    assert KeepsOrder(w);
    assert w.answered + w.dropped + [] + [] == w.answered + w.dropped;
    assert job in w.sent;
  }

  /** A worker that got going and can no longer lose a job. */
  predicate IsServing(p: Pool, at: Place) {
    at in p.workers && p.workers[at].dropped == [] &&
    (p.workers[at].status == Running || (p.workers[at].status == Gone && !p.isOpen))
  }

  /** A worker whose thread left at once. */
  predicate IsLost(p: Pool, at: Place) {
    at in p.workers && p.workers[at].status == Gone && p.workers[at].answered == []
  }

  predicate IsStarting(p: Pool, at: Place) { at in p.workers && p.workers[at].status == Starting }

  lemma OwnSteps(p: Pool, s: Step)
    requires WellFormed(p) && Enabled(p, s) && !s.Dispatch?
    ensures Next(p, s).workers.Keys == p.workers.Keys
  {
  }

  /** A step never adds or removes a worker, and a dispatch changes no more than a flag. */
  lemma StepMoves(p: Pool, s: Step)
    requires Inv(p) && Enabled(p, s)
    ensures Next(p, s).workers.Keys == p.workers.Keys
    ensures s.Dispatch? ==> Next(p, s).isOpen && forall o :: o in p.workers ==>
              Next(p, s).workers[o] == p.workers[o].(busy := Next(p, s).workers[o].busy)
  {
    if s.Dispatch? { DispatchMeans(p, s.job, s.lane); } else { OwnSteps(p, s); }
  }

  /** What a step may make of one worker. */
  predicate StatusMoves(p: Pool, s: Step, at: Place, p': Pool) {
    && (IsServing(p, at) ==> IsServing(p', at))
    && (IsLost(p, at) ==> IsLost(p', at))
    && (IsStarting(p, at) && s == Start(at, true) ==> IsServing(p', at))
    && (IsStarting(p, at) && s == Start(at, false) ==> IsLost(p', at))
    && (IsStarting(p, at) && s != Start(at, true) && s != Start(at, false) ==> IsStarting(p', at))
  }

  lemma WorkerStatusStep(p: Pool, s: Step, at: Place)
    requires WellFormed(p) && Enabled(p, s) && !s.Dispatch? && at in p.workers && KeepsOrder(p.workers[at])
    requires !p.isOpen ==> p.claims == map[]
    ensures StatusMoves(p, s, at, Next(p, s))
  {
  }

  lemma FlagMoves(p: Pool, s: Step, at: Place, p': Pool)
    requires s.Dispatch? && p.isOpen && at in p.workers && at in p'.workers
    requires p'.workers[at] == p.workers[at].(busy := p'.workers[at].busy)
    ensures StatusMoves(p, s, at, p')
  {
  }

  lemma StatusStep(p: Pool, s: Step, at: Place)
    requires Inv(p) && Enabled(p, s) && at in p.workers
    ensures StatusMoves(p, s, at, Next(p, s))
  {
    if s.Dispatch? {
      StepMoves(p, s);
      FlagMoves(p, s, at, Next(p, s));
    } else {
      WorkerStatusStep(p, s, at);
    }
  }

  lemma {:induction false} ServingRun(p: Pool, steps: seq<Step>, at: Place)
    requires Inv(p) && IsRun(p, steps) && IsServing(p, at)
    ensures IsServing(Ran(p, steps), at)
    decreases |steps|
  {
    if steps != [] {
      NextInv(p, steps[0]);
      StatusStep(p, steps[0], at);
      ServingRun(Next(p, steps[0]), steps[1..], at);
    }
  }

  lemma {:induction false} LostRun(p: Pool, steps: seq<Step>, at: Place)
    requires Inv(p) && IsRun(p, steps) && IsLost(p, at)
    ensures IsLost(Ran(p, steps), at)
    decreases |steps|
  {
    if steps != [] {
      NextInv(p, steps[0]);
      StatusStep(p, steps[0], at);
      LostRun(Next(p, steps[0]), steps[1..], at);
    }
  }

  /** What a worker that has not started yet becomes: its first start decides. */
  lemma {:induction false} StatusRun(p: Pool, steps: seq<Step>, at: Place)
    requires Inv(p) && IsRun(p, steps) && IsStarting(p, at)
    ensures if Start(at, true) in steps then IsServing(Ran(p, steps), at)
            else IsLost(Ran(p, steps), at) || IsStarting(Ran(p, steps), at)
    decreases |steps|
  {
    if steps != [] {
      var p', rest := Next(p, steps[0]), steps[1..];
      assert Start(at, true) in steps <==> Start(at, true) == steps[0] || Start(at, true) in rest;
      NextInv(p, steps[0]);
      StatusStep(p, steps[0], at);
      if steps[0] == Start(at, true) {
        ServingRun(p', rest, at);
      } else if steps[0] == Start(at, false) {
        LostRun(p', rest, at);
        LostNeverStarts(p', rest, at);
      } else {
        StatusRun(p', rest, at);
      }
    }
  }

  lemma {:induction false} LostNeverStarts(p: Pool, steps: seq<Step>, at: Place)
    requires Inv(p) && IsRun(p, steps) && IsLost(p, at)
    ensures Start(at, true) !in steps
    decreases |steps|
  {
    if steps != [] {
      assert steps == [steps[0]] + steps[1..];
      NextInv(p, steps[0]);
      StatusStep(p, steps[0], at);
      LostNeverStarts(Next(p, steps[0]), steps[1..], at);
    }
  }

  /**
   * Over every run that closes the pool and ends with its workers gone: a job is
   * answered, once, exactly when its worker started with a backend, however much
   * was still queued at the close; it is dropped exactly when its worker never did.
   */
  lemma ClosingServesAll(interactive: nat, bulk: nat, steps: seq<Step>, job: nat)
    requires IsRun(NewPool(interactive, bulk), steps)
    ensures var p := Ran(NewPool(interactive, bulk), steps);
            !p.isOpen && AllGone(p) && job in p.placed ==>
            && p.placed[job] in p.workers
            && Distinct(p.workers[p.placed[job]].answered)
            && (job in p.workers[p.placed[job]].answered <==> Start(p.placed[job], true) in steps)
            && (job in p.workers[p.placed[job]].dropped <==> Start(p.placed[job], true) !in steps)
  {
    var p := Ran(NewPool(interactive, bulk), steps);
    if !p.isOpen && AllGone(p) && job in p.placed { ClosedRunServesAll(NewPool(interactive, bulk), p, steps, job); }
  }

  lemma ClosedRunServesAll(p0: Pool, p: Pool, steps: seq<Step>, job: nat)
    requires Inv(p0) && IsRun(p0, steps) && p == Ran(p0, steps) && !p.isOpen && AllGone(p) && job in p.placed
    requires forall at :: at in p0.workers ==> IsStarting(p0, at)
    ensures p.placed[job] in p.workers && Distinct(p.workers[p.placed[job]].answered)
    ensures job in p.workers[p.placed[job]].answered <==> Start(p.placed[job], true) in steps
    ensures job in p.workers[p.placed[job]].dropped <==> Start(p.placed[job], true) !in steps
  {
    var at := p.placed[job];
    GoneAccountForAll(p, job);
    OrderIsServed(p.workers[at]);
    SamePlaces(p0, steps);
    StatusRun(p0, steps, at);
    var w := p.workers[at];
    forall i, j | 0 <= i < j < |w.answered| ensures w.answered[i] != w.answered[j] {
      assert (w.answered + w.dropped)[i] == w.answered[i] && (w.answered + w.dropped)[j] == w.answered[j];
    }
    assert IsServing(p, at) ==> job !in w.dropped;
    assert IsLost(p, at) ==> job !in w.answered;
  }

  /** No step adds or removes a worker. */
  lemma {:induction false} SamePlaces(p: Pool, steps: seq<Step>)
    requires Inv(p) && IsRun(p, steps)
    ensures Ran(p, steps).workers.Keys == p.workers.Keys
    decreases |steps|
  {
    if steps != [] {
      NextInv(p, steps[0]);
      StepMoves(p, steps[0]);
      SamePlaces(Next(p, steps[0]), steps[1..]);
    }
  }

  // -------------------------------------------------------------- closing ends

  /** The worker a step moves, if it moves one on. */
  function Moved(s: Step): Option<Place> {
    match s
    case Start(at, _) => Some(at)
    case Receive(at) => Some(at)
    case Reply(at) => Some(at)
    case Exit(at) => Some(at)
    case _ => None
  }

  function Left(w: Worker): nat {
    2 * |w.queue| + (if w.current.Some? then 1 else 0) +
    (match w.status case Starting => 2 case Running => 1 case Gone => 0)
  }

  /** The join cannot wait on a worker that has nothing to do: until it is gone, it can always move. */
  lemma WorkerCanMove(p: Pool, at: Place) returns (s: Step)
    requires Inv(p) && !p.isOpen && at in p.workers && p.workers[at].status != Gone
    ensures Moved(s) == Some(at) && Enabled(p, s)
  {
    var w := p.workers[at];
    assert KeepsOrder(w);
    s := if w.status == Starting then Start(at, true)
         else if w.current.Some? then Reply(at)
         else if w.queue != [] then Receive(at) else Exit(at);
  }

  lemma MovesUseUp(p: Pool, s: Step, at: Place)
    requires Inv(p) && !p.isOpen && Enabled(p, s) && at in p.workers
    ensures at in Next(p, s).workers && !Next(p, s).isOpen
    ensures if Moved(s) == Some(at) then Left(Next(p, s).workers[at]) < Left(p.workers[at])
            else Left(Next(p, s).workers[at]) == Left(p.workers[at])
  {
    assert KeepsOrder(p.workers[at]);
  }

  function MovesOf(steps: seq<Step>, at: Place): nat {
    if steps == [] then 0 else (if Moved(steps[0]) == Some(at) then 1 else 0) + MovesOf(steps[1..], at)
  }

  /** After the close a worker moves only as often as what it had left allows, so the join returns. */
  lemma {:induction false} ClosingEnds(p: Pool, steps: seq<Step>, at: Place)
    requires Inv(p) && IsRun(p, steps) && !p.isOpen && at in p.workers
    ensures MovesOf(steps, at) <= Left(p.workers[at])
    decreases |steps|
  {
    if steps != [] {
      NextInv(p, steps[0]);
      MovesUseUp(p, steps[0], at);
      ClosingEnds(Next(p, steps[0]), steps[1..], at);
    }
  }

  // ---------------------------------------------------------------- the pool

  /** One lane's senders, flags and rotation counter. */
  class LaneWorkers {
    const queues: array<seq<nat>>
    const busy: array<bool>
    var roundRobin: nat

    ghost predicate Valid()
      reads this, queues, busy
    {
      queues.Length == busy.Length
    }

    constructor (size: nat)
      ensures Valid() && busy.Length == size && fresh(queues) && fresh(busy)
      ensures (forall i :: 0 <= i < size ==> queues[i] == [] && !busy[i]) && roundRobin == 0
    {
      queues := new seq<nat>[size](_ => []);
      busy := new bool[size](_ => false);
      roundRobin := 0;
    }

    /** `claim_worker`. */
    method ClaimWorker() returns (worker: nat)
      requires Valid() && busy.Length > 0
      modifies this`roundRobin, busy
      ensures worker < busy.Length && (worker, busy[..], roundRobin) == Claimed(old(busy[..]), old(roundRobin))
      ensures Claims(old(busy[..]), old(roundRobin), worker, busy[..], roundRobin)
    {
      ClaimedClaims(busy[..], roundRobin);
      for i := 0 to busy.Length
        invariant forall k :: 0 <= k < i ==> busy[k]
        invariant busy[..] == old(busy[..]) && roundRobin == old(roundRobin)
      {
        if !busy[i] {
          busy[i] := true;
          return i;
        }
      }
      worker := roundRobin % busy.Length;
      roundRobin := (roundRobin + 1) % USIZE;
    }
  }

  class WorkerPool {
    const interactive: LaneWorkers
    const bulk: LaneWorkers

    ghost predicate Valid()
      reads this, interactive, bulk, interactive.queues, interactive.busy, bulk.queues, bulk.busy
    {
      && interactive.Valid() && bulk.Valid() && interactive != bulk
      && interactive.queues != bulk.queues && interactive.busy != bulk.busy
      && interactive.busy.Length + bulk.busy.Length > 0
    }

    constructor (bulkSize: nat, interactiveSize: nat)
      ensures Valid() && fresh(interactive) && fresh(bulk)
      ensures interactive.busy.Length == interactiveSize
      ensures bulk.busy.Length == if bulkSize == 0 && interactiveSize == 0 then 1 else bulkSize
    {
      interactive := new LaneWorkers(interactiveSize);
      bulk := new LaneWorkers(BulkSize(bulkSize, interactiveSize));
    }

    function Effective(requested: Lane): Lane { EffectiveLane(requested, interactive.busy.Length, bulk.busy.Length) }

    function Workers(lane: Lane): LaneWorkers { if lane == Interactive then interactive else bulk }

    function Opposite(lane: Lane): LaneWorkers { if lane == Interactive then bulk else interactive }

    /** The first half of `dispatch`: a worker of the effective lane is claimed, and nothing is queued yet. */
    method Claim(requested: Lane) returns (worker: nat)
      requires Valid()
      modifies interactive`roundRobin, bulk`roundRobin, interactive.busy, bulk.busy
      ensures Valid() && worker < Workers(Effective(requested)).queues.Length
      ensures var mine := Workers(Effective(requested));
              && (worker, mine.busy[..], mine.roundRobin) == Claimed(old(mine.busy[..]), old(mine.roundRobin))
              && Claims(old(mine.busy[..]), old(mine.roundRobin), worker, mine.busy[..], mine.roundRobin)
      ensures var other := Opposite(Effective(requested));
              other.busy[..] == old(other.busy[..]) && other.roundRobin == old(other.roundRobin)
    {
      var workers := Workers(Effective(requested));
      worker := workers.ClaimWorker();
    }

    /** The second half, whatever has happened to the flags meanwhile: the job joins the end of that worker's queue. */
    method Send(job: nat, requested: Lane, worker: nat)
      requires Valid() && worker < Workers(Effective(requested)).queues.Length
      modifies interactive.queues, bulk.queues
      ensures Valid()
      ensures var mine := Workers(Effective(requested)).queues;
              mine[..] == old(mine[..])[worker := old(mine[..])[worker] + [job]]
      ensures Opposite(Effective(requested)).queues[..] == old(Opposite(Effective(requested)).queues[..])
    {
      var queues := Workers(Effective(requested)).queues;
      queues[worker] := queues[worker] + [job];
    }

    /**
     * `dispatch`: one queue of the effective lane gains the job at its end; nothing else
     * in either lane moves but the claim.
     */
    method Dispatch(job: nat, requested: Lane) returns (worker: nat)
      requires Valid()
      modifies interactive`roundRobin, bulk`roundRobin, interactive.queues, bulk.queues, interactive.busy, bulk.busy
      ensures Valid() && worker < Workers(Effective(requested)).queues.Length
      ensures var mine := Workers(Effective(requested));
              && mine.queues[..] == old(mine.queues[..])[worker := old(mine.queues[..])[worker] + [job]]
              && Claims(old(mine.busy[..]), old(mine.roundRobin), worker, mine.busy[..], mine.roundRobin)
      ensures var other := Opposite(Effective(requested));
              && other.queues[..] == old(other.queues[..])
              && other.busy[..] == old(other.busy[..]) && other.roundRobin == old(other.roundRobin)
    {
      worker := Claim(requested);
      Send(job, requested, worker);
    }
  }
}
