/**
 * The session cache under several processes. Every call on it is a read of the
 * entry followed by a write, with no lock between the two, so calls of other
 * processes can fall in the gap (config/org_tokens.rs `read_cache`, `write_cache`).
 */
module OrgRaces {
  import opened Wrappers
  import opened OrgTokens
  import opened Pages
  import Lex

  /** A call that has read `seen` and not yet written. */
  datatype Pending = Pending(op: Op, seen: Entry)

  datatype Machine = Machine(entry: Entry, pending: map<nat, Pending>)

  /** `Abandon`: the process ended, or its call turned out to be a lookup. */
  datatype Step = Begin(process: nat, op: Op) | Finish(process: nat) | Abandon(process: nat)

  predicate Enabled(m: Machine, s: Step) {
    match s
    case Begin(p, _) => p !in m.pending
    case Finish(p) => p in m.pending
    case Abandon(p) => p in m.pending
  }

  ghost function WrittenBy(m: Machine, p: nat): Option<Entry>
    requires p in m.pending
  {
    Written(m.pending[p].seen, m.pending[p].op)
  }

  ghost function Next(m: Machine, s: Step): Machine
    requires Enabled(m, s)
  {
    match s
    case Begin(p, op) => m.(pending := m.pending[p := Pending(op, m.entry)])
    case Finish(p) =>
      Machine(if WrittenBy(m, p).Some? then WrittenBy(m, p).value else m.entry, m.pending - {p})
    case Abandon(p) => m.(pending := m.pending - {p})
  }

  ghost predicate IsRun(m: Machine, steps: seq<Step>)
    decreases |steps|
  {
    steps == [] || (Enabled(m, steps[0]) && IsRun(Next(m, steps[0]), steps[1..]))
  }

  ghost function Ran(m: Machine, steps: seq<Step>): Machine
    requires IsRun(m, steps)
    decreases |steps|
  {
    if steps == [] then m else Ran(Next(m, steps[0]), steps[1..])
  }

  // ------------------------------------------------------- what races cannot break

  predicate AllSound(m: Machine) {
    IsSound(m.entry) && forall p :: p in m.pending ==> IsSound(m.pending[p].seen)
  }

  lemma StepStaysSound(m: Machine, s: Step)
    requires AllSound(m) && Enabled(m, s)
    ensures AllSound(Next(m, s))
  {
    if s.Finish? { StaysSound(m.pending[s.process].seen, m.pending[s.process].op); }
  }

  /** However calls overlap, the active org is a cached one, and an entry is there exactly when some org is. */
  lemma {:induction false} RacesStaySound(m: Machine, steps: seq<Step>)
    requires AllSound(m) && IsRun(m, steps)
    ensures AllSound(Ran(m, steps))
    decreases |steps|
  {
    if steps != [] {
      StepStaysSound(m, steps[0]);
      RacesStaySound(Next(m, steps[0]), steps[1..]);
    }
  }

  // ------------------------------------------------- when calls are as good as atomic

  /** Every write finds the entry as its own call read it. */
  ghost predicate IsUndisturbed(m: Machine, steps: seq<Step>)
    requires IsRun(m, steps)
    decreases |steps|
  {
    steps == [] ||
    ((steps[0].Finish? ==> m.pending[steps[0].process].seen == m.entry) && IsUndisturbed(Next(m, steps[0]), steps[1..]))
  }

  /** The calls that finish, in the order they do. */
  ghost function Finished(m: Machine, steps: seq<Step>): seq<Op>
    requires IsRun(m, steps)
    decreases |steps|
  {
    if steps == [] then []
    else (if steps[0].Finish? then [m.pending[steps[0].process].op] else []) + Finished(Next(m, steps[0]), steps[1..])
  }

  /** Calls that no other write comes between do what they would one after another. */
  lemma {:induction false} UndisturbedIsAtomic(m: Machine, steps: seq<Step>)
    requires IsRun(m, steps) && IsUndisturbed(m, steps)
    ensures Ran(m, steps).entry == Run(m.entry, Finished(m, steps))
    decreases |steps|
  {
    if steps != [] {
      UndisturbedIsAtomic(Next(m, steps[0]), steps[1..]);
      var rest := Finished(Next(m, steps[0]), steps[1..]);
      if steps[0].Finish? {
        var op := m.pending[steps[0].process].op;
        assert ([op] + rest)[0] == op && ([op] + rest)[1..] == rest;
      } else {
        assert [] + rest == rest;
      }
    }
  }

  // -------------------------------------------------------- when a session survives

  /** Where the entry's text comes from: the entry at the start, or what a process had read before it. */
  datatype Root = Now | Before(process: nat)

  /** The roots of the entry and of what each call under way has read. */
  datatype Roots = Roots(entry: Root, pending: map<nat, Root>)

  function FirstRoots(m: Machine): Roots { Roots(Now, map p | p in m.pending :: Before(p)) }

  ghost function NextRoots(m: Machine, s: Step, r: Roots): Roots
    requires Enabled(m, s) && r.pending.Keys == m.pending.Keys
  {
    match s
    case Begin(p, _) => r.(pending := r.pending[p := r.entry])
    case Finish(p) => Roots(if WrittenBy(m, p).Some? then r.pending[p] else r.entry, r.pending - {p})
    case Abandon(p) => r.(pending := r.pending - {p})
  }

  /** The root of the entry a run leaves behind: whose reading each write in turn was made from. */
  ghost function LastRoot(m: Machine, steps: seq<Step>, r: Roots): Root
    requires IsRun(m, steps) && r.pending.Keys == m.pending.Keys
    decreases |steps|
  {
    if steps == [] then r.entry else LastRoot(Next(m, steps[0]), steps[1..], NextRoots(m, steps[0], r))
  }

  /** The entry a root stands for. */
  function RootEntry(m: Machine, root: Root): Entry
    requires root.Before? ==> root.process in m.pending
  {
    match root
    case Now => m.entry
    case Before(p) => m.pending[p].seen
  }

  /** No call that finishes is about org `k`, as far as it could see. */
  ghost predicate Spares(m: Machine, steps: seq<Step>, k: string)
    requires IsRun(m, steps)
    decreases |steps|
  {
    steps == [] || (SparesAt(m, steps[0], k) && Spares(Next(m, steps[0]), steps[1..], k))
  }

  predicate SparesAt(m: Machine, s: Step, k: string)
    requires Enabled(m, s)
  {
    s.Finish? ==>
      var call := m.pending[s.process];
      ReadCache(call.seen).Success? && !IsAbout(ReadCache(call.seen).value, call.op, k)
  }

  predicate SameSession(e: Entry, e': Entry, k: string)
    requires IsSound(e) && IsSound(e')
  {
    SameAt(ReadCache(e).value, ReadCache(e').value, k)
  }

  /** Each entry and reading has the session its root has. */
  predicate Descends(start: Machine, m: Machine, r: Roots, k: string)
    requires AllSound(start) && AllSound(m)
  {
    && r.pending.Keys == m.pending.Keys
    && HasRoot(start, m.entry, r.entry, k)
    && forall p :: p in m.pending ==> HasRoot(start, m.pending[p].seen, r.pending[p], k)
  }

  predicate HasRoot(start: Machine, e: Entry, root: Root, k: string)
    requires AllSound(start) && IsSound(e)
  {
    && (root.Before? ==> root.process in start.pending)
    && SameSession(RootEntry(start, root), e, k)
  }

  lemma WriteSpares(e: Entry, op: Op, k: string)
    requires IsSound(e) && !IsAbout(ReadCache(e).value, op, k)
    ensures IsSound(Outcome(e, op)) && SameSession(e, Outcome(e, op), k)
  {
    StaysSound(e, op);
    if op.LogoutOrg? { KeyForIs(ReadCache(e).value, op.ident); }
  }

  lemma DescendsStep(start: Machine, m: Machine, s: Step, r: Roots, k: string)
    requires AllSound(start) && AllSound(m) && Descends(start, m, r, k) && Enabled(m, s) && SparesAt(m, s, k)
    ensures AllSound(Next(m, s)) && Descends(start, Next(m, s), NextRoots(m, s, r), k)
  {
    StepStaysSound(m, s);
    if s.Finish? { WriteSpares(m.pending[s.process].seen, m.pending[s.process].op, k); }
  }

  lemma {:induction false} RunDescends(start: Machine, m: Machine, steps: seq<Step>, r: Roots, k: string)
    requires AllSound(start) && AllSound(m) && Descends(start, m, r, k) && IsRun(m, steps) && Spares(m, steps, k)
    ensures AllSound(Ran(m, steps)) && HasRoot(start, Ran(m, steps).entry, LastRoot(m, steps, r), k)
    decreases |steps|
  {
    if steps != [] {
      DescendsStep(start, m, steps[0], r, k);
      RunDescends(start, Next(m, steps[0]), steps[1..], NextRoots(m, steps[0], r), k);
    }
  }

  /**
   * Exactly when an org's session comes through calls of other processes that are
   * not about it: the entry left behind goes back to the entry at the start, or to
   * an earlier reading that already had that session.
   */
  lemma SurvivesIff(m: Machine, steps: seq<Step>, k: string)
    requires AllSound(m) && IsRun(m, steps) && Spares(m, steps, k)
    ensures AllSound(Ran(m, steps))
    ensures var root := LastRoot(m, steps, FirstRoots(m));
            && (root.Before? ==> root.process in m.pending)
            && (SameSession(m.entry, Ran(m, steps).entry, k) <==>
                root.Now? || SameSession(m.entry, m.pending[root.process].seen, k))
  {
    RunDescends(m, m, steps, FirstRoots(m), k);
  }

  lemma {:induction false} NoneUnderWay(m: Machine, steps: seq<Step>, r: Roots)
    requires IsRun(m, steps) && r.pending.Keys == m.pending.Keys
    requires r.entry.Now? && forall p :: p in r.pending ==> r.pending[p].Now?
    ensures LastRoot(m, steps, r).Now?
    decreases |steps|
  {
    if steps != [] { NoneUnderWay(Next(m, steps[0]), steps[1..], NextRoots(m, steps[0], r)); }
  }

  /** A session stored while no other call was under way survives every later overlap of calls not about its org. */
  lemma QuietStoreSurvives(m: Machine, steps: seq<Step>, k: string)
    requires AllSound(m) && m.pending == map[] && IsRun(m, steps) && Spares(m, steps, k)
    ensures AllSound(Ran(m, steps)) && SameSession(m.entry, Ran(m, steps).entry, k)
  {
    SurvivesIff(m, steps, k);
    NoneUnderWay(m, steps, FirstRoots(m));
  }

  // --------------------------------------------------------------- the lost update

  /** `slow` reads, `quick` reads and writes, then `slow` writes. */
  function Overlap(slow: Op, quick: Op): seq<Step> { [Begin(0, slow), Begin(1, quick), Finish(1), Finish(0)] }

  lemma RunOn(m: Machine, s: Step, rest: seq<Step>)
    requires Enabled(m, s) && IsRun(Next(m, s), rest)
    ensures IsRun(m, [s] + rest) && Ran(m, [s] + rest) == Ran(Next(m, s), rest)
  {
    assert ([s] + rest)[0] == s && ([s] + rest)[1..] == rest;
  }

  /** Of two calls that read the same entry the later write stands alone: the other call might never have been. */
  lemma LaterWriteStands(e: Entry, slow: Op, quick: Op)
    requires Written(e, slow).Some?
    ensures var m := Machine(e, map[]);
            IsRun(m, Overlap(slow, quick)) && Ran(m, Overlap(slow, quick)) == Machine(Outcome(e, slow), map[])
  {
    var m := Machine(e, map[]);
    var m1 := Next(m, Begin(0, slow));
    var m2 := Next(m1, Begin(1, quick));
    var m3 := Next(m2, Finish(1));
    assert m3.pending == map[0 := Pending(slow, e)];
    assert Next(m3, Finish(0)) == Machine(Outcome(e, slow), map[]);
    RunOn(m3, Finish(0), []);
    RunOn(m2, Finish(1), [Finish(0)]);
    RunOn(m1, Begin(1, quick), [Finish(1)] + [Finish(0)]);
    RunOn(m, Begin(0, slow), [Begin(1, quick)] + ([Finish(1)] + [Finish(0)]));
    assert Overlap(slow, quick) == [Begin(0, slow)] + ([Begin(1, quick)] + ([Finish(1)] + [Finish(0)]));
  }

  /** A local switch to one org undoes a login to another that finishes inside it. */
  lemma SwitchLosesLogin(e: Entry, ident: string, t: AuthTokens, slug: Option<string>)
    requires IsSound(e) && KeyFor(ReadCache(e).value, ident).Some? && t.orgId !in ReadCache(e).value.orgs
    ensures var m := Machine(e, map[]);
            && IsRun(m, Overlap(Switch(ident), Login(t, slug)))
            && var after := Ran(m, Overlap(Switch(ident), Login(t, slug))).entry;
               IsSound(after) && SessionOf(ReadCache(after).value, Some(t.orgId)) == None
  {
    LaterWriteStands(e, Switch(ident), Login(t, slug));
    StaysSound(e, Switch(ident));
  }

  /** And a refresh: the org is left with the tokens it had before, not the ones it was given. */
  lemma SwitchLosesRefresh(e: Entry, ident: string, t: AuthTokens)
    requires IsSound(e) && KeyFor(ReadCache(e).value, ident).Some? && t.orgId in ReadCache(e).value.orgs
    ensures var m := Machine(e, map[]);
            && IsRun(m, Overlap(Switch(ident), Refresh(t)))
            && var after := Ran(m, Overlap(Switch(ident), Refresh(t))).entry;
               IsSound(after) &&
               SessionOf(ReadCache(after).value, Some(t.orgId)) == SessionOf(ReadCache(e).value, Some(t.orgId))
  {
    LaterWriteStands(e, Switch(ident), Refresh(t));
    StaysSound(e, Switch(ident));
  }
}
