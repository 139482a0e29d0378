/**
 * The fixed-window rate limiter (rate_limiter.rs).
 *
 * `Checks` says what one call of `check` may do to the buckets, `RefEntry` and
 * `RefAnswer` are the simple limiter it stands in for: one entry per key, no
 * sweep, no cap. Times are whole ticks of the monotonic clock.
 */
module RateLimiter {
  import opened Sets

  const DEFAULT_MAX_BUCKETS := 10_000

  datatype Entry = Entry(count: nat, windowStart: nat)

  datatype Config = Config(maxRequests: nat, window: nat, maxBuckets: nat)

  datatype Buckets = Buckets(entries: map<string, Entry>, lastSweep: nat)

  /** `Instant::duration_since`, which saturates at zero. */
  function Since(now: nat, earlier: nat): nat { if now < earlier then 0 else now - earlier }

  predicate Expired(cfg: Config, e: Entry, now: nat) { Since(now, e.windowStart) >= cfg.window }

  function Swept(cfg: Config, b: Buckets, now: nat): Buckets {
    Buckets(map k | k in b.entries && !Expired(cfg, b.entries[k], now) :: b.entries[k], now)
  }

  /** The entry a request at `now` is counted against. */
  function Current(cfg: Config, entries: map<string, Entry>, key: string, now: nat): Entry {
    if key in entries && !Expired(cfg, entries[key], now) then entries[key] else Entry(0, now)
  }

  predicate Admits(cfg: Config, e: Entry) { e.count < cfg.maxRequests }

  function Charged(cfg: Config, e: Entry): Entry {
    if Admits(cfg, e) then Entry(e.count + 1, e.windowStart) else e
  }

  /** The buckets after the sweeps a call at `now` for `key` runs, before anything is evicted. */
  function AfterSweeps(cfg: Config, b: Buckets, key: string, now: nat): Buckets {
    var b1 := if Since(now, b.lastSweep) >= cfg.window then Swept(cfg, b, now) else b;
    if key !in b1.entries && |b1.entries| >= cfg.maxBuckets then Swept(cfg, b1, now) else b1
  }

  /** `evicted` makes just enough room for `key`, oldest windows first. */
  ghost predicate MakesRoom(cfg: Config, entries: map<string, Entry>, key: string, evicted: set<string>) {
    && evicted <= entries.Keys
    && |evicted| == (if key in entries || |entries| < cfg.maxBuckets then 0 else |entries| + 1 - cfg.maxBuckets)
    && (forall k, k' :: k in evicted && k' in entries && k' !in evicted ==>
          entries[k].windowStart <= entries[k'].windowStart)
  }

  /** One call of `check`: which buckets were evicted, what is kept and what is answered. */
  ghost predicate Checks(cfg: Config, b: Buckets, key: string, now: nat, evicted: set<string>, b': Buckets, ok: bool) {
    var swept := AfterSweeps(cfg, b, key, now);
    var kept := swept.entries - evicted;
    var e := Current(cfg, kept, key, now);
    && MakesRoom(cfg, swept.entries, key, evicted)
    && b' == Buckets(kept[key := Charged(cfg, e)], swept.lastSweep)
    && ok == Admits(cfg, e)
  }

  // ------------------------------------------------------------- the limiter

  predicate IsOldest(entries: map<string, Entry>, k: string) {
    k in entries && forall k' :: k' in entries ==> entries[k].windowStart <= entries[k'].windowStart
  }

  lemma {:induction false} OldestExists(entries: map<string, Entry>) returns (k: string)
    requires entries != map[]
    ensures IsOldest(entries, k)
    decreases |entries|
  {
    k :| k in entries;
    var rest := entries - {k};
    assert rest.Keys == entries.Keys - {k};
    assert forall k' :: k' in entries ==> k' == k || k' in rest;
    if rest != map[] {
      var y := OldestExists(rest);
      if entries[y].windowStart < entries[k].windowStart { k := y; }
    }
  }

  /** `evicted` is gone from `all`, leaving `kept`, none of it older. */
  ghost predicate IsEvicted(all: map<string, Entry>, evicted: set<string>, kept: map<string, Entry>) {
    && evicted <= all.Keys && kept == all - evicted && |kept| == |all| - |evicted|
    && forall k, k' :: k in evicted && k' in kept ==> all[k].windowStart <= kept[k'].windowStart
  }

  lemma EvictOne(all: map<string, Entry>, evicted: set<string>, kept: map<string, Entry>, oldest: string)
    requires IsEvicted(all, evicted, kept) && IsOldest(kept, oldest)
    ensures oldest !in evicted && IsEvicted(all, evicted + {oldest}, kept - {oldest})
  {
    var kept' := kept - {oldest};
    assert kept'.Keys == kept.Keys - {oldest};
    assert kept' == all - (evicted + {oldest});
  }

  class RateLimiter {
    const maxRequests: nat
    const window: nat
    var maxBuckets: nat
    var entries: map<string, Entry>
    var lastSweep: nat

    predicate Valid()
      reads this
    {
      maxBuckets >= 1
    }

    function Cfg(): Config
      reads this
    {
      Config(maxRequests, window, maxBuckets)
    }

    function State(): Buckets
      reads this
    {
      Buckets(entries, lastSweep)
    }

    constructor (maxRequests: nat, window: nat, now: nat)
      ensures Valid() && Cfg() == Config(maxRequests, window, DEFAULT_MAX_BUCKETS)
      ensures State() == Buckets(map[], now)
    {
      this.maxRequests := maxRequests;
      this.window := window;
      this.maxBuckets := DEFAULT_MAX_BUCKETS;
      this.entries := map[];
      this.lastSweep := now;
    }

    method WithMaxBuckets(maxBuckets: nat)
      requires Valid()
      modifies this`maxBuckets
      ensures Valid() && this.maxBuckets == if maxBuckets == 0 then 1 else maxBuckets
    {
      this.maxBuckets := if maxBuckets == 0 then 1 else maxBuckets;
    }

    method SweepExpired(now: nat)
      modifies this`entries, this`lastSweep
      ensures State() == Swept(Cfg(), old(State()), now)
    {
      entries := map k | k in entries && Since(now, entries[k].windowStart) < window :: entries[k];
      lastSweep := now;
    }

    method Evict() returns (ghost evicted: set<string>)
      requires Valid()
      modifies this`entries
      ensures evicted <= old(entries).Keys && entries == old(entries) - evicted
      ensures |evicted| == if |old(entries)| < maxBuckets then 0 else |old(entries)| + 1 - maxBuckets
      ensures forall k, k' :: k in evicted && k' in entries ==>
                old(entries)[k].windowStart <= entries[k'].windowStart
    {
      evicted := {};
      ghost var all := entries;
      assert all - {} == all;
      while |entries| >= maxBuckets
        invariant IsEvicted(all, evicted, entries)
        invariant evicted == {} || |entries| >= maxBuckets - 1
        invariant |all| < maxBuckets ==> evicted == {}
        decreases |entries|
      {
        ghost var some := OldestExists(entries);
        var oldest :| IsOldest(entries, oldest);
        assert IsOldest(entries, oldest);
        EvictOne(all, evicted, entries, oldest);
        entries := entries - {oldest};
        evicted := evicted + {oldest};
      }
    }

    /** Sweep when due or when full, then evict if still full. */
    method MakeRoom(key: string, now: nat) returns (ghost evicted: set<string>)
      requires Valid()
      modifies this`entries, this`lastSweep
      ensures var swept := AfterSweeps(Cfg(), old(State()), key, now);
              MakesRoom(Cfg(), swept.entries, key, evicted) &&
              State() == Buckets(swept.entries - evicted, swept.lastSweep)
    {
      if Since(now, lastSweep) >= window {
        SweepExpired(now);
      }
      if key !in entries && |entries| >= maxBuckets {
        SweepExpired(now);
        ghost var swept := entries;
        evicted := Evict();
        assert forall k' :: k' in swept && k' !in evicted ==> k' in entries && entries[k'] == swept[k'];
      } else {
        evicted := {};
        assert entries - evicted == entries;
      }
    }

    /** Count one request of `key` against its current window. */
    method Charge(key: string, now: nat) returns (ok: bool)
      modifies this`entries
      ensures var e := Current(Cfg(), old(entries), key, now);
              entries == old(entries)[key := Charged(Cfg(), e)] && ok == Admits(Cfg(), e)
    {
      var entry := if key in entries then entries[key] else Entry(0, now);
      if Since(now, entry.windowStart) >= window {
        entry := Entry(0, now);
      }
      entries := entries[key := entry];
      if entry.count >= maxRequests { return false; }
      entries := entries[key := entry.(count := entry.count + 1)];
      ok := true;
    }

    /** Whether `key` is within its limit at `now`; counts the request when it is. */
    method Check(key: string, now: nat) returns (ok: bool, ghost evicted: set<string>)
      requires Valid()
      modifies this`entries, this`lastSweep
      ensures Checks(Cfg(), old(State()), key, now, evicted, State(), ok)
    {
      evicted := MakeRoom(key, now);
      ok := Charge(key, now);
    }
  }

  // ------------------------------------------------------------------ bounds

  /** What holds of the buckets after a call at `now`. */
  ghost predicate Bounded(cfg: Config, b: Buckets, now: nat) {
    && |b.entries| <= cfg.maxBuckets
    && b.lastSweep <= now
    && (cfg.window > 0 ==> now < b.lastSweep + cfg.window)
    && (forall k :: k in b.entries ==> IsRecent(cfg, b.entries[k], b.lastSweep, now))
  }

  /** Within its count, and not yet expired at the last sweep. */
  predicate IsRecent(cfg: Config, e: Entry, lastSweep: nat, now: nat) {
    e.count <= cfg.maxRequests && e.windowStart <= now && (cfg.window > 0 ==> lastSweep < e.windowStart + cfg.window)
  }

  lemma SweptSize(cfg: Config, b: Buckets, now: nat)
    ensures |Swept(cfg, b, now).entries| <= |b.entries|
  {
    SubsetCount(Swept(cfg, b, now).entries.Keys, b.entries.Keys);
  }

  /** The sweeps keep the bounds, forget only expired buckets, and leave a fresh sweep time. */
  lemma SweepsBounded(cfg: Config, b: Buckets, earlier: nat, key: string, now: nat)
    requires Bounded(cfg, b, earlier) && earlier <= now
    ensures Bounded(cfg, AfterSweeps(cfg, b, key, now), now)
    ensures forall k :: k in AfterSweeps(cfg, b, key, now).entries ==>
              k in b.entries && b.entries[k] == AfterSweeps(cfg, b, key, now).entries[k]
  {
    SweptSize(cfg, b, now);
    var b1 := if Since(now, b.lastSweep) >= cfg.window then Swept(cfg, b, now) else b;
    SweptSize(cfg, b1, now);
  }

  lemma CheckBounded(cfg: Config, b: Buckets, earlier: nat, key: string, now: nat, evicted: set<string>, b': Buckets,
                     ok: bool)
    requires cfg.maxBuckets >= 1 && Bounded(cfg, b, earlier) && earlier <= now
    requires Checks(cfg, b, key, now, evicted, b', ok)
    ensures Bounded(cfg, b', now)
  {
    SweepsBounded(cfg, b, earlier, key, now);
    var swept := AfterSweeps(cfg, b, key, now);
    assert key in swept.entries ==> evicted == {};
    ChargedSize(swept.entries, evicted, key, b'.entries[key]);
    assert |b'.entries| <= cfg.maxBuckets;
    forall k | k in b'.entries ensures IsRecent(cfg, b'.entries[k], b'.lastSweep, now) {
      assert k != key ==> k in swept.entries && b'.entries[k] == swept.entries[k];
    }
  }

  lemma ChargedSize(entries: map<string, Entry>, evicted: set<string>, key: string, e: Entry)
    requires evicted <= entries.Keys
    ensures |(entries - evicted)[key := e]| <= |entries| - |evicted| + 1
    ensures key in entries - evicted ==> |(entries - evicted)[key := e]| == |entries| - |evicted|
  {
    var kept := entries - evicted;
    assert kept.Keys == entries.Keys - evicted;
    assert kept[key := e].Keys == kept.Keys + {key};
  }

  lemma EvictsOneLiveBucket(cfg: Config, b: Buckets, earlier: nat, key: string, now: nat, evicted: set<string>,
                            b': Buckets, ok: bool)
    requires cfg.maxBuckets >= 1 && Bounded(cfg, b, earlier) && earlier <= now
    requires Checks(cfg, b, key, now, evicted, b', ok)
    ensures |evicted| <= 1
    ensures forall k :: k in evicted ==> k in b.entries && k != key && !Expired(cfg, b.entries[k], now)
    ensures forall k, k' :: k in evicted && k' in b'.entries && k' != key ==>
              b.entries[k].windowStart <= b'.entries[k'].windowStart
  {
    SweepsBounded(cfg, b, earlier, key, now);
    var swept := AfterSweeps(cfg, b, key, now);
    assert evicted <= swept.entries.Keys;
  }

  /**
   * The map never outgrows its cap, no bucket is two windows old or over its
   * count, a call evicts at most one bucket, live and not its own, and a key
   * without a bucket is let in.
   */
  lemma CheckStaysBounded(cfg: Config, b: Buckets, earlier: nat, key: string, now: nat, evicted: set<string>,
                          b': Buckets, ok: bool)
    requires cfg.maxBuckets >= 1 && Bounded(cfg, b, earlier) && earlier <= now
    requires Checks(cfg, b, key, now, evicted, b', ok)
    ensures Bounded(cfg, b', now) && |b'.entries| <= cfg.maxBuckets
    ensures |evicted| <= 1
    ensures forall k :: k in evicted ==> k in b.entries && k != key && !Expired(cfg, b.entries[k], now)
    ensures forall k :: k in b'.entries && cfg.window > 0 ==> Since(now, b'.entries[k].windowStart) < 2 * cfg.window
    ensures key !in b.entries && cfg.maxRequests >= 1 ==> ok
  {
    CheckBounded(cfg, b, earlier, key, now, evicted, b', ok);
    EvictsOneLiveBucket(cfg, b, earlier, key, now, evicted, b', ok);
  }

  // --------------------------------------------- agreement with the reference

  /** One recorded call: what was asked and when, what was answered, what was evicted. */
  datatype Call = Call(key: string, now: nat, ok: bool, evicted: set<string>)

  predicate Ordered(calls: seq<Call>) {
    forall i, j :: 0 <= i <= j < |calls| ==> calls[i].now <= calls[j].now
  }

  /** A run of the limiter from an empty map at time `start`. */
  ghost predicate IsRun(cfg: Config, start: nat, calls: seq<Call>, states: seq<Buckets>) {
    && |states| == |calls| + 1 && states[0] == Buckets(map[], start)
    && Ordered(calls) && (|calls| > 0 ==> start <= calls[0].now)
    && (forall i :: 0 <= i < |calls| ==>
          Checks(cfg, states[i], calls[i].key, calls[i].now, calls[i].evicted, states[i + 1], calls[i].ok))
  }

  /** The unbounded limiter: every key keeps its entry for ever. */
  function RefState(cfg: Config, calls: seq<Call>): map<string, Entry> {
    if |calls| == 0 then map[]
    else
      var before, c := RefState(cfg, calls[..|calls| - 1]), calls[|calls| - 1];
      before[c.key := Charged(cfg, Current(cfg, before, c.key, c.now))]
  }

  predicate RefAnswer(cfg: Config, calls: seq<Call>, i: nat)
    requires i < |calls|
  {
    Admits(cfg, Current(cfg, RefState(cfg, calls[..i]), calls[i].key, calls[i].now))
  }

  /** A key's bucket is the reference entry, or is gone and the reference entry has expired. */
  ghost predicate Agrees(cfg: Config, entries: map<string, Entry>, ref: map<string, Entry>, key: string, now: nat) {
    if key in entries then key in ref && ref[key] == entries[key]
    else key in ref ==> Expired(cfg, ref[key], now)
  }

  lemma CheckAgrees(cfg: Config, b: Buckets, c: Call, b': Buckets, ref: map<string, Entry>, key: string, earlier: nat)
    requires Checks(cfg, b, c.key, c.now, c.evicted, b', c.ok)
    requires key !in c.evicted && earlier <= c.now && Agrees(cfg, b.entries, ref, key, earlier)
    ensures Agrees(cfg, b'.entries, ref[c.key := Charged(cfg, Current(cfg, ref, c.key, c.now))], key, c.now)
    ensures c.key == key ==> c.ok == Admits(cfg, Current(cfg, ref, key, c.now))
  {
    var swept := AfterSweeps(cfg, b, c.key, c.now);
    assert Agrees(cfg, swept.entries, ref, key, c.now);
  }

  ghost predicate NeverEvicted(calls: seq<Call>, key: string) {
    forall i :: 0 <= i < |calls| ==> key !in calls[i].evicted
  }

  function LastTime(start: nat, calls: seq<Call>): nat {
    if |calls| == 0 then start else calls[|calls| - 1].now
  }

  lemma {:induction false} RunAgrees(cfg: Config, start: nat, calls: seq<Call>, states: seq<Buckets>, key: string,
                                     n: nat)
    requires IsRun(cfg, start, calls, states) && NeverEvicted(calls, key) && n <= |calls|
    ensures Agrees(cfg, states[n].entries, RefState(cfg, calls[..n]), key, LastTime(start, calls[..n]))
  {
    if n > 0 {
      RunAgrees(cfg, start, calls, states, key, n - 1);
      assert calls[..n][..n - 1] == calls[..n - 1];
      CheckAgrees(cfg, states[n - 1], calls[n - 1], states[n], RefState(cfg, calls[..n - 1]), key,
                  LastTime(start, calls[..n - 1]));
    }
  }

  /** A key that is never evicted is answered exactly as by the unbounded, never-swept limiter. */
  lemma SweepingIsInvisible(cfg: Config, start: nat, calls: seq<Call>, states: seq<Buckets>, key: string)
    requires IsRun(cfg, start, calls, states) && NeverEvicted(calls, key)
    ensures AnswersAsReference(cfg, calls, key)
  {
    forall i | 0 <= i < |calls| && calls[i].key == key ensures calls[i].ok == RefAnswer(cfg, calls, i) {
      RunAgrees(cfg, start, calls, states, key, i);
      CheckAgrees(cfg, states[i], calls[i], states[i + 1], RefState(cfg, calls[..i]), key, LastTime(start, calls[..i]));
    }
  }

  /** Every state of every run is bounded. */
  lemma {:induction false} RunStaysBounded(cfg: Config, start: nat, calls: seq<Call>, states: seq<Buckets>, n: nat)
    requires cfg.maxBuckets >= 1 && IsRun(cfg, start, calls, states) && 0 < n <= |calls|
    ensures Bounded(cfg, states[n], calls[n - 1].now)
  {
    var c := calls[n - 1];
    if n == 1 {
      assert states[0].entries == map[];
    } else {
      RunStaysBounded(cfg, start, calls, states, n - 1);
      CheckStaysBounded(cfg, states[n - 1], calls[n - 2].now, c.key, c.now, c.evicted, states[n], c.ok);
    }
  }

  // ------------------------------------------------------------- rate bounds

  /** How many requests of `key` at or after `lo` were admitted. */
  function AdmittedSince(calls: seq<Call>, key: string, lo: nat): nat {
    if |calls| == 0 then 0
    else
      var c := calls[|calls| - 1];
      AdmittedSince(calls[..|calls| - 1], key, lo) + if c.key == key && c.ok && c.now >= lo then 1 else 0
  }

  /** How many requests of `key` in the half-open interval [lo, hi) were admitted. */
  function AdmittedWithin(calls: seq<Call>, key: string, lo: nat, hi: nat): nat {
    if |calls| == 0 then 0
    else
      var c := calls[|calls| - 1];
      AdmittedWithin(calls[..|calls| - 1], key, lo, hi) + if c.key == key && c.ok && lo <= c.now < hi then 1 else 0
  }

  ghost predicate AnswersAsReference(cfg: Config, calls: seq<Call>, key: string) {
    forall i :: 0 <= i < |calls| && calls[i].key == key ==> calls[i].ok == RefAnswer(cfg, calls, i)
  }

  lemma {:induction false} NoneSince(calls: seq<Call>, key: string, lo: nat)
    requires forall i :: 0 <= i < |calls| && calls[i].key == key ==> calls[i].now < lo
    ensures AdmittedSince(calls, key, lo) == 0
  {
    if |calls| > 0 { NoneSince(calls[..|calls| - 1], key, lo); }
  }

  /** What the reference entry of a key says about the requests admitted so far. */
  ghost predicate EntryCounts(cfg: Config, calls: seq<Call>, key: string, lo: nat) {
    var ref := RefState(cfg, calls);
    if key !in ref then forall i :: 0 <= i < |calls| ==> calls[i].key != key
    else
      var e := ref[key];
      && e.count <= cfg.maxRequests
      && (cfg.maxRequests > 0 ==> e.count > 0)
      && (|calls| > 0 ==> e.windowStart <= calls[|calls| - 1].now)
      && (forall i :: 0 <= i < |calls| && calls[i].key == key ==> calls[i].now < e.windowStart + cfg.window)
      && AdmittedSince(calls, key, e.windowStart) == e.count
      && (e.windowStart < lo && e.count > 0 ==> AdmittedSince(calls, key, lo) < e.count)
      && (e.windowStart < lo + cfg.window && cfg.maxRequests > 0 ==>
            AdmittedSince(calls, key, lo) < e.count + cfg.maxRequests)
      && (cfg.maxRequests == 0 ==> AdmittedSince(calls, key, lo) == 0)
  }

  lemma PrefixAnswers(cfg: Config, init: seq<Call>, c: Call, key: string)
    requires AnswersAsReference(cfg, init + [c], key)
    ensures AnswersAsReference(cfg, init, key)
    ensures c.key == key ==> c.ok == Admits(cfg, Current(cfg, RefState(cfg, init), key, c.now))
  {
    var calls := init + [c];
    assert calls[..|init|] == init && calls[|init|] == c;
    forall i | 0 <= i < |init| && init[i].key == key ensures init[i].ok == RefAnswer(cfg, init, i) {
      assert calls[i] == init[i] && calls[..i] == init[..i];
    }
  }

  lemma {:induction false} EntryCountsAdmitted(cfg: Config, calls: seq<Call>, key: string, lo: nat)
    requires cfg.window > 0 && Ordered(calls) && AnswersAsReference(cfg, calls, key)
    ensures EntryCounts(cfg, calls, key, lo)
  {
    if |calls| > 0 {
      var init, c := calls[..|calls| - 1], calls[|calls| - 1];
      assert calls == init + [c];
      PrefixAnswers(cfg, init, c, key);
      EntryCountsAdmitted(cfg, init, key, lo);
      if c.key == key {
        CallCounts(cfg, init, c, lo);
      } else {
        OtherCallCounts(cfg, init, c, key, lo);
      }
    }
  }

  lemma OtherCallCounts(cfg: Config, init: seq<Call>, c: Call, key: string, lo: nat)
    requires EntryCounts(cfg, init, key, lo) && c.key != key
    requires forall i :: 0 <= i < |init| ==> init[i].now <= c.now
    ensures EntryCounts(cfg, init + [c], key, lo)
  {
    assert (init + [c])[..|init|] == init;
  }

  lemma CallCounts(cfg: Config, init: seq<Call>, c: Call, lo: nat)
    requires cfg.window > 0 && EntryCounts(cfg, init, c.key, lo)
    requires forall i :: 0 <= i < |init| ==> init[i].now <= c.now
    requires c.ok == Admits(cfg, Current(cfg, RefState(cfg, init), c.key, c.now))
    ensures EntryCounts(cfg, init + [c], c.key, lo)
  {
    var calls, key, ref := init + [c], c.key, RefState(cfg, init);
    assert calls[..|init|] == init;
    var e := Current(cfg, ref, key, c.now);
    assert RefState(cfg, calls)[key] == Charged(cfg, e);
    if key !in ref {
      NoneSince(init, key, c.now);
      NoneSince(init, key, lo);
    } else if Expired(cfg, ref[key], c.now) {
      NoneSince(init, key, c.now);
      if c.now < lo { NoneSince(init, key, lo); }
    }
  }

  /** Within a key's current window exactly `count` requests were admitted, never more than the limit. */
  lemma WindowBound(cfg: Config, calls: seq<Call>, key: string)
    requires cfg.window > 0 && Ordered(calls) && AnswersAsReference(cfg, calls, key)
    requires key in RefState(cfg, calls)
    ensures AdmittedSince(calls, key, RefState(cfg, calls)[key].windowStart)
         == RefState(cfg, calls)[key].count <= cfg.maxRequests
  {
    EntryCountsAdmitted(cfg, calls, key, 0);
  }

  lemma {:induction false} WithinIsSince(calls: seq<Call>, key: string, lo: nat, hi: nat)
    requires forall i :: 0 <= i < |calls| ==> calls[i].now < hi
    ensures AdmittedWithin(calls, key, lo, hi) == AdmittedSince(calls, key, lo)
  {
    if |calls| > 0 { WithinIsSince(calls[..|calls| - 1], key, lo, hi); }
  }

  /** In any interval one window long a key gets fewer than twice its limit (and none if the limit is 0). */
  lemma {:induction false} IntervalBound(cfg: Config, calls: seq<Call>, key: string, lo: nat)
    requires Ordered(calls) && AnswersAsReference(cfg, calls, key)
    ensures var n := AdmittedWithin(calls, key, lo, lo + cfg.window);
            if cfg.maxRequests == 0 then n == 0 else n < 2 * cfg.maxRequests
  {
    if |calls| > 0 {
      var k := |calls| - 1;
      if cfg.window > 0 && calls[k].now < lo + cfg.window {
        WithinIsSince(calls, key, lo, lo + cfg.window);
        EntryCountsAdmitted(cfg, calls, key, lo);
        if key !in RefState(cfg, calls) { NoneSince(calls, key, lo); }
      } else {
        assert calls == calls[..k] + [calls[k]];
        PrefixAnswers(cfg, calls[..k], calls[k], key);
        IntervalBound(cfg, calls[..k], key, lo);
      }
    }
  }

  /** The bound for the real limiter: any run, any key that is never evicted. */
  lemma RunIntervalBound(cfg: Config, start: nat, calls: seq<Call>, states: seq<Buckets>, key: string, lo: nat)
    requires IsRun(cfg, start, calls, states) && NeverEvicted(calls, key)
    ensures var n := AdmittedWithin(calls, key, lo, lo + cfg.window);
            if cfg.maxRequests == 0 then n == 0 else n < 2 * cfg.maxRequests
  {
    SweepingIsInvisible(cfg, start, calls, states, key);
    IntervalBound(cfg, calls, key, lo);
  }

  /** The same within a window, told from the limiter's own bucket. */
  lemma RunWindowBound(cfg: Config, start: nat, calls: seq<Call>, states: seq<Buckets>, key: string)
    requires cfg.window > 0 && IsRun(cfg, start, calls, states) && NeverEvicted(calls, key)
    requires key in states[|calls|].entries
    ensures var e := states[|calls|].entries[key];
            AdmittedSince(calls, key, e.windowStart) == e.count <= cfg.maxRequests
  {
    SweepingIsInvisible(cfg, start, calls, states, key);
    RunAgrees(cfg, start, calls, states, key, |calls|);
    assert calls[..|calls|] == calls;
    WindowBound(cfg, calls, key);
  }

  // ------------------------------------------------------ who is never evicted

  predicate KeysAreIn(calls: seq<Call>, keys: set<string>) { forall i :: 0 <= i < |calls| ==> calls[i].key in keys }

  lemma FewKeysStep(cfg: Config, b: Buckets, c: Call, b': Buckets, keys: set<string>)
    requires Checks(cfg, b, c.key, c.now, c.evicted, b', c.ok)
    requires b.entries.Keys <= keys && c.key in keys && |keys| <= cfg.maxBuckets
    ensures b'.entries.Keys <= keys && c.evicted == {}
  {
    var swept := AfterSweeps(cfg, b, c.key, c.now);
    assert swept.entries.Keys <= keys;
    if c.key !in swept.entries {
      SubsetCount(swept.entries.Keys, keys - {c.key});
      assert |keys - {c.key}| == |keys| - 1;
    }
  }

  lemma {:induction false} FewKeysRun(cfg: Config, start: nat, calls: seq<Call>, states: seq<Buckets>,
                                      keys: set<string>, n: nat)
    requires IsRun(cfg, start, calls, states) && KeysAreIn(calls, keys) && |keys| <= cfg.maxBuckets && n <= |calls|
    ensures states[n].entries.Keys <= keys && forall i :: 0 <= i < n ==> calls[i].evicted == {}
  {
    if n > 0 {
      FewKeysRun(cfg, start, calls, states, keys, n - 1);
      FewKeysStep(cfg, states[n - 1], calls[n - 1], states[n], keys);
    }
  }

  /**
   * With no more distinct callers than buckets nobody is ever evicted, so every
   * caller gets the unbounded limiter's answers and fewer than twice the limit
   * in any interval one window long.
   */
  lemma FewCallersAreExact(cfg: Config, start: nat, calls: seq<Call>, states: seq<Buckets>, keys: set<string>,
                           key: string, lo: nat)
    requires IsRun(cfg, start, calls, states) && KeysAreIn(calls, keys) && |keys| <= cfg.maxBuckets
    ensures NeverEvicted(calls, key) && AnswersAsReference(cfg, calls, key)
    ensures cfg.maxRequests > 0 ==> AdmittedWithin(calls, key, lo, lo + cfg.window) < 2 * cfg.maxRequests
  {
    FewKeysRun(cfg, start, calls, states, keys, |calls|);
    SweepingIsInvisible(cfg, start, calls, states, key);
    RunIntervalBound(cfg, start, calls, states, key, lo);
  }

  // --------------------------------------------------------- the bound is met

  function Ok(key: string, now: nat): Call { Call(key, now, true, {}) }

  /**
   * When call `j` of a burst comes: one at once, the rest of a limit a tick before the
   * window ends, then a full limit as it ends.
   */
  function BurstTime(cfg: Config, j: nat): nat
    requires cfg.window >= 2
  {
    if j == 0 then 0 else if j < cfg.maxRequests then cfg.window - 1 else cfg.window
  }

  function Burst(cfg: Config, key: string, j: nat): (calls: seq<Call>)
    requires cfg.window >= 2
    ensures |calls| == j + 1
  {
    if j == 0 then [Ok(key, 0)] else Burst(cfg, key, j - 1) + [Ok(key, BurstTime(cfg, j))]
  }

  lemma {:induction false} BurstOrdered(cfg: Config, key: string, j: nat)
    requires cfg.window >= 2
    ensures Ordered(Burst(cfg, key, j)) && Burst(cfg, key, j)[j].now == BurstTime(cfg, j)
  {
    if j > 0 {
      BurstOrdered(cfg, key, j - 1);
      var init := Burst(cfg, key, j - 1);
      assert forall i :: 0 <= i < |init| ==> init[i].now <= init[j - 1].now;
    }
  }

  /**
   * The buckets before call `i` of a burst: one entry, counted from 0 and, once the
   * first window is over, from its end.
   */
  function BurstBuckets(cfg: Config, key: string, i: nat): Buckets {
    if i == 0 then Buckets(map[], 0)
    else if i <= cfg.maxRequests then Buckets(map[key := Entry(i, 0)], 0)
    else Buckets(map[key := Entry(i - cfg.maxRequests, cfg.window)], cfg.window)
  }

  lemma BurstChecks(cfg: Config, key: string, i: nat)
    requires cfg.maxRequests >= 1 && cfg.window >= 2 && cfg.maxBuckets >= 1 && i < 2 * cfg.maxRequests
    ensures Checks(cfg, BurstBuckets(cfg, key, i), key, BurstTime(cfg, i), {}, BurstBuckets(cfg, key, i + 1), true)
  {
    var b, now := BurstBuckets(cfg, key, i), BurstTime(cfg, i);
    var swept := AfterSweeps(cfg, b, key, now);
    assert swept.entries == if i == 0 || i == cfg.maxRequests then map[] else b.entries;
    assert swept.entries - {} == swept.entries;
    var e := Current(cfg, swept.entries, key, now);
    assert swept.entries[key := Charged(cfg, e)] == map[key := Charged(cfg, e)];
    assert MakesRoom(cfg, swept.entries, key, {}) && Admits(cfg, e);
    assert BurstBuckets(cfg, key, i + 1) == Buckets(map[key := Charged(cfg, e)], swept.lastSweep);
  }

  lemma {:induction false} BurstPrefix(cfg: Config, key: string, j: nat, i: nat)
    requires cfg.window >= 2 && i <= j
    ensures Burst(cfg, key, j)[..i + 1] == Burst(cfg, key, i)
  {
    if i < j {
      BurstPrefix(cfg, key, j - 1, i);
      assert Burst(cfg, key, j)[..i + 1] == Burst(cfg, key, j - 1)[..i + 1];
    }
  }

  lemma BurstCall(cfg: Config, key: string, j: nat, i: nat)
    requires cfg.window >= 2 && i <= j
    ensures Burst(cfg, key, j)[i] == Ok(key, BurstTime(cfg, i))
  {
    BurstPrefix(cfg, key, j, i);
    assert Burst(cfg, key, j)[i] == Burst(cfg, key, j)[..i + 1][i];
  }

  lemma {:induction false} BurstCount(cfg: Config, key: string, j: nat, lo: nat)
    requires cfg.window >= 2 && lo == cfg.window - 1
    ensures AdmittedWithin(Burst(cfg, key, j), key, lo, lo + cfg.window) == j
  {
    if j > 0 {
      BurstCount(cfg, key, j - 1, lo);
      var init := Burst(cfg, key, j - 1);
      assert (init + [Ok(key, BurstTime(cfg, j))])[..j] == init;
    }
  }

  function BurstStates(cfg: Config, key: string, j: nat): (states: seq<Buckets>)
    ensures |states| == j + 2 && forall i: nat :: i < j + 2 ==> states[i] == BurstBuckets(cfg, key, i)
  {
    seq(j + 2, i requires i >= 0 => BurstBuckets(cfg, key, i))
  }

  lemma BurstCallChecks(cfg: Config, key: string, calls: seq<Call>, states: seq<Buckets>, j: nat, i: nat)
    requires cfg.maxRequests >= 1 && cfg.window >= 2 && cfg.maxBuckets >= 1 && i <= j < 2 * cfg.maxRequests
    requires calls == Burst(cfg, key, j) && states == BurstStates(cfg, key, j)
    ensures CallChecks(cfg, calls[i], states[i], states[i + 1])
    ensures calls[i].key == key && calls[i].evicted == {}
  {
    BurstCall(cfg, key, j, i);
    BurstChecks(cfg, key, i);
  }

  ghost predicate CallChecks(cfg: Config, c: Call, b: Buckets, b': Buckets) {
    Checks(cfg, b, c.key, c.now, c.evicted, b', c.ok)
  }

  lemma CheckedIsRun(cfg: Config, calls: seq<Call>, states: seq<Buckets>)
    requires |states| == |calls| + 1 && states[0] == Buckets(map[], 0) && Ordered(calls)
    requires forall i :: 0 <= i < |calls| ==> CallChecks(cfg, calls[i], states[i], states[i + 1])
    ensures IsRun(cfg, 0, calls, states)
  {
  }

  lemma BurstIsRun(cfg: Config, key: string, j: nat)
    requires cfg.maxRequests >= 1 && cfg.window >= 2 && cfg.maxBuckets >= 1 && j < 2 * cfg.maxRequests
    ensures IsRun(cfg, 0, Burst(cfg, key, j), BurstStates(cfg, key, j))
    ensures KeysAreIn(Burst(cfg, key, j), {key}) && NeverEvicted(Burst(cfg, key, j), key)
  {
    var calls, states := Burst(cfg, key, j), BurstStates(cfg, key, j);
    BurstOrdered(cfg, key, j);
    forall i | 0 <= i < |calls|
      ensures CallChecks(cfg, calls[i], states[i], states[i + 1])
      ensures calls[i].key == key && calls[i].evicted == {}
    {
      BurstCallChecks(cfg, key, calls, states, j, i);
    }
    CheckedIsRun(cfg, calls, states);
  }

  /** The limiter meets its bound: for every limit, window of two ticks or more and cap, a run with no eviction does. */
  lemma IntervalBoundIsTight(cfg: Config, key: string) returns (calls: seq<Call>, states: seq<Buckets>, lo: nat)
    requires cfg.maxRequests >= 1 && cfg.window >= 2 && cfg.maxBuckets >= 1
    ensures IsRun(cfg, 0, calls, states) && KeysAreIn(calls, {key}) && NeverEvicted(calls, key)
    ensures AdmittedWithin(calls, key, lo, lo + cfg.window) == 2 * cfg.maxRequests - 1
  {
    var j := 2 * cfg.maxRequests - 1;
    calls, states, lo := Burst(cfg, key, j), BurstStates(cfg, key, j), cfg.window - 1;
    BurstIsRun(cfg, key, j);
    BurstCount(cfg, key, j, lo);
  }

  /** An evicted key starts over: with one bucket and limit 1, "a" is admitted twice in one tick. */
  lemma EvictionForgives()
    ensures var cfg := Config(1, 10, 1);
            var onlyA, onlyB := Buckets(map["a" := Entry(1, 0)], 0), Buckets(map["b" := Entry(1, 0)], 0);
            && Checks(cfg, Buckets(map[], 0), "a", 0, {}, onlyA, true)
            && Checks(cfg, onlyA, "b", 0, {"a"}, onlyB, true)
            && Checks(cfg, onlyB, "a", 0, {"b"}, onlyA, true)
  {
    OneBucketTurnover("a", "b");
    OneBucketTurnover("b", "a");
  }

  lemma OneBucketTurnover(old_: string, new_: string)
    requires old_ != new_
    ensures Checks(Config(1, 10, 1), Buckets(map[old_ := Entry(1, 0)], 0), new_, 0, {old_},
                   Buckets(map[new_ := Entry(1, 0)], 0), true)
  {
    var cfg, b := Config(1, 10, 1), Buckets(map[old_ := Entry(1, 0)], 0);
    assert Swept(cfg, b, 0) == b;
    assert b.entries - {old_} == map[];
  }
}
