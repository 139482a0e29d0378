/**
 * The per-organization session cache (config/org_tokens.rs): one secret-store
 * entry holding every organization's session and an `active` pointer.
 */
module OrgTokens {
  import opened Wrappers
  import opened Pages
  import Lex

  datatype AuthTokens = AuthTokens(accessToken: string, refreshToken: string, expiresAt: int, orgId: string,
                                   cloudOrigin: string)

  datatype OrgSession = OrgSession(accessToken: string, refreshToken: string, expiresAt: int,
                                   cloudOrigin: string, slug: Option<string>)

  datatype Cache = Cache(active: Option<string>, orgs: map<string, OrgSession>)

  const EMPTY := Cache(None, map[])

  /** What the secret store holds: nothing, only white space, text that does not parse, or a cache. */
  datatype Entry = Absent | Blank | Garbled | Json(cache: Cache)

  datatype TokenError = ParseError

  function ReadCache(e: Entry): Result<Cache, TokenError> {
    match e
    case Absent => Success(EMPTY)
    case Blank => Success(EMPTY)
    case Garbled => Failure(ParseError)
    case Json(cache) => Success(cache)
  }

  /** An empty cache is written by deleting the entry. */
  function WriteCache(c: Cache): Entry { if c.active.None? && c.orgs == map[] then Absent else Json(c) }

  function ToAuthTokens(orgId: string, s: OrgSession): AuthTokens {
    AuthTokens(s.accessToken, s.refreshToken, s.expiresAt, orgId, s.cloudOrigin)
  }

  function SessionFrom(t: AuthTokens, slug: Option<string>): OrgSession {
    OrgSession(t.accessToken, t.refreshToken, t.expiresAt, t.cloudOrigin, slug)
  }

  // -------------------------------------------------------------- resolution

  function Slugged(c: Cache, ident: string): set<string> { set k | k in c.orgs && c.orgs[k].slug == Some(ident) }

  /** `key_for`: the org id itself, else the first org in key order stored under that slug. */
  ghost function KeyFor(c: Cache, ident: string): Option<string> {
    TextIsOrder();
    if ident in c.orgs then Some(ident)
    else if Slugged(c, ident) != {} then Some(Least(TextOrder(), Slugged(c, ident)))
    else None
  }

  ghost function ResolvedId(c: Cache, pin: Option<string>): Option<string> {
    if pin.Some? then KeyFor(c, pin.value) else c.active
  }

  function SessionOf(c: Cache, id: Option<string>): Option<AuthTokens> {
    if id.Some? && id.value in c.orgs then Some(ToAuthTokens(id.value, c.orgs[id.value])) else None
  }

  /** The org's id or its slug is `ident`. */
  predicate AnswersTo(c: Cache, k: string, ident: string) {
    k in c.orgs && (k == ident || c.orgs[k].slug == Some(ident))
  }

  lemma KeyForIs(c: Cache, ident: string)
    ensures KeyFor(c, ident).Some? ==> AnswersTo(c, KeyFor(c, ident).value, ident)
    ensures KeyFor(c, ident).None? ==> forall k :: !AnswersTo(c, k, ident)
  {
    TextIsOrder();
    if KeyFor(c, ident).Some? && ident !in c.orgs {
      assert IsLeast(TextOrder(), Slugged(c, ident), KeyFor(c, ident).value);
    }
    if KeyFor(c, ident).None? {
      forall k ensures !AnswersTo(c, k, ident) {
        assert k in c.orgs && c.orgs[k].slug == Some(ident) ==> k in Slugged(c, ident);
      }
    }
  }

  /**
   * A pin gives a session exactly when some org answers to it, and only such an org's:
   * never the active one's instead.
   */
  lemma PinNeverStrays(c: Cache, pin: string)
    ensures var got := SessionOf(c, ResolvedId(c, Some(pin)));
            && (got.Some? <==> exists k :: AnswersTo(c, k, pin))
            && (got.Some? ==> AnswersTo(c, got.value.orgId, pin) &&
                              got.value == ToAuthTokens(got.value.orgId, c.orgs[got.value.orgId]))
  {
    KeyForIs(c, pin);
  }

  // --------------------------------------------------------------- operations

  function KeptSlug(c: Cache, orgId: string): Option<string> { if orgId in c.orgs then c.orgs[orgId].slug else None }

  function SetActive(c: Cache, t: AuthTokens, slug: Option<string>): Cache {
    var kept := if slug.Some? then slug else KeptSlug(c, t.orgId);
    Cache(Some(t.orgId), c.orgs[t.orgId := SessionFrom(t, kept)])
  }

  function UpdateInPlace(c: Cache, t: AuthTokens): Cache {
    c.(orgs := c.orgs[t.orgId := SessionFrom(t, KeptSlug(c, t.orgId))])
  }

  ghost function SetActiveLocal(c: Cache, ident: string): Cache {
    var key := KeyFor(c, ident);
    if key.Some? then c.(active := key) else c
  }

  ghost function ClearOrg(c: Cache, ident: string): Cache {
    match KeyFor(c, ident)
    case None => c
    case Some(key) => Cache(if c.active == Some(key) then None else c.active, c.orgs - {key})
  }

  function MigrateLegacy(c: Cache, t: AuthTokens): Cache {
    Cache(if c.active.None? then Some(t.orgId) else c.active,
          if t.orgId in c.orgs then c.orgs else c.orgs[t.orgId := SessionFrom(t, None)])
  }

  // -------------------------------------------------------------- whole runs

  datatype Op =
    | Login(tokens: AuthTokens, slug: Option<string>)
    | Refresh(tokens: AuthTokens)
    | Switch(ident: string)
    | LogoutOrg(ident: string)
    | LogoutAll
    | Migrate(tokens: AuthTokens)

  ghost function Changed(c: Cache, op: Op): Cache {
    match op
    case Login(tokens, slug) => SetActive(c, tokens, slug)
    case Refresh(tokens) => UpdateInPlace(c, tokens)
    case Switch(ident) => SetActiveLocal(c, ident)
    case LogoutOrg(ident) => ClearOrg(c, ident)
    case LogoutAll => EMPTY
    case Migrate(tokens) => MigrateLegacy(c, tokens)
  }

  /** What a call that read `e` writes: nothing where the entry does not parse or no org answers to its name. */
  ghost function Written(e: Entry, op: Op): Option<Entry> {
    match ReadCache(e)
    case Failure(_) => None
    case Success(c) =>
      if (op.Switch? || op.LogoutOrg?) && KeyFor(c, op.ident).None? then None
      else if op.LogoutAll? then Some(Absent)
      else Some(WriteCache(Changed(c, op)))
  }

  /** A call that nothing comes between. */
  ghost function Outcome(e: Entry, op: Op): Entry { if Written(e, op).Some? then Written(e, op).value else e }

  /** The active pointer names a cached org, and an entry is there exactly when some org is. */
  predicate IsSound(e: Entry) {
    match e
    case Absent => true
    case Json(c) => c.orgs != map[] && (c.active.Some? ==> c.active.value in c.orgs)
    case _ => false
  }

  lemma WrittenIsSound(c: Cache)
    requires c.active.Some? ==> c.active.value in c.orgs
    ensures IsSound(WriteCache(c)) && ReadCache(WriteCache(c)) == Success(c)
    ensures WriteCache(c) == Absent <==> c.orgs == map[]
  {
  }

  lemma StaysSound(e: Entry, op: Op)
    requires IsSound(e)
    ensures IsSound(Outcome(e, op))
    ensures ReadCache(Outcome(e, op)) == Success(Changed(ReadCache(e).value, op))
  {
    var c := ReadCache(e).value;
    if op.Switch? || op.LogoutOrg? { KeyForIs(c, op.ident); }
    if !op.LogoutAll? { WrittenIsSound(Changed(c, op)); }
  }

  ghost function Run(e: Entry, ops: seq<Op>): Entry
    decreases |ops|
  {
    if ops == [] then e else Run(Outcome(e, ops[0]), ops[1..])
  }

  /** Over any run from an empty store. */
  lemma {:induction false} RunStaysSound(e: Entry, ops: seq<Op>)
    requires IsSound(e)
    ensures IsSound(Run(e, ops))
    decreases |ops|
  {
    if ops != [] {
      StaysSound(e, ops[0]);
      RunStaysSound(Outcome(e, ops[0]), ops[1..]);
    }
  }

  /** The one org a call is about, if any. */
  ghost function Touched(c: Cache, op: Op): Option<string> {
    match op
    case Login(tokens, _) => Some(tokens.orgId)
    case Refresh(tokens) => Some(tokens.orgId)
    case Switch(_) => None
    case LogoutOrg(ident) => KeyFor(c, ident)
    case LogoutAll => None
    case Migrate(tokens) => Some(tokens.orgId)
  }

  predicate SameAt(c: Cache, c': Cache, k: string) {
    (k in c'.orgs <==> k in c.orgs) && (k in c.orgs ==> c'.orgs[k] == c.orgs[k])
  }

  /** A call about one org leaves every other org's session exactly as it was. */
  lemma OthersUntouched(e: Entry, op: Op, k: string)
    requires IsSound(e) && !op.LogoutAll?
    requires Touched(ReadCache(e).value, op) != Some(k)
    ensures SameAt(ReadCache(e).value, ReadCache(Outcome(e, op)).value, k)
  {
    StaysSound(e, op);
  }

  /** The call's own org may change, and the active pointer may move. */
  predicate IsAbout(c: Cache, op: Op, k: string) {
    match op
    case Login(tokens, _) => tokens.orgId == k
    case Refresh(tokens) => tokens.orgId == k
    case Switch(_) => false
    case LogoutOrg(ident) => AnswersTo(c, k, ident)
    case LogoutAll => true
    case Migrate(tokens) => tokens.orgId == k && k !in c.orgs
  }

  ghost predicate NeverAbout(e: Entry, ops: seq<Op>, k: string)
    decreases |ops|
  {
    ops == [] ||
    (ReadCache(e).Success? && !IsAbout(ReadCache(e).value, ops[0], k) && NeverAbout(Outcome(e, ops[0]), ops[1..], k))
  }

  /** An org no call of a whole run is about keeps its session through it. */
  lemma {:induction false} SessionSurvives(e: Entry, ops: seq<Op>, k: string)
    requires IsSound(e) && NeverAbout(e, ops, k)
    ensures IsSound(Run(e, ops)) && SameAt(ReadCache(e).value, ReadCache(Run(e, ops)).value, k)
    decreases |ops|
  {
    if ops != [] {
      var c := ReadCache(e).value;
      if ops[0].LogoutOrg? { KeyForIs(c, ops[0].ident); }
      StaysSound(e, ops[0]);
      SessionSurvives(Outcome(e, ops[0]), ops[1..], k);
    }
  }

  // ---------------------------------------------------------- what calls mean

  /** What login stored is what resolution gives back, with no pin and with the org's own id as pin. */
  lemma LoginThenResolve(e: Entry, t: AuthTokens, slug: Option<string>)
    requires IsSound(e)
    ensures var c := ReadCache(Outcome(e, Login(t, slug))).value;
            SessionOf(c, ResolvedId(c, None)) == Some(t) && SessionOf(c, ResolvedId(c, Some(t.orgId))) == Some(t)
  {
    StaysSound(e, Login(t, slug));
  }

  /** A login under a slug stores it; one without keeps the slug the org had, if any. */
  lemma LoginSlug(e: Entry, t: AuthTokens, slug: Option<string>)
    requires IsSound(e)
    ensures var before, c := ReadCache(e).value, ReadCache(Outcome(e, Login(t, slug))).value;
            && t.orgId in c.orgs
            && c.orgs[t.orgId].slug == if slug.Some? then slug
                                       else if t.orgId in before.orgs then before.orgs[t.orgId].slug else None
  {
    StaysSound(e, Login(t, slug));
  }

  /** A local switch to a cached org makes it the one an unpinned call resolves to, and changes no session. */
  lemma SwitchThenResolve(e: Entry, ident: string)
    requires IsSound(e)
    ensures var before, c := ReadCache(e).value, ReadCache(Outcome(e, Switch(ident))).value;
            && c.orgs == before.orgs
            && if exists k :: AnswersTo(before, k, ident)
               then c.active.Some? && AnswersTo(before, c.active.value, ident)
                    && SessionOf(c, ResolvedId(c, None)) == SessionOf(before, ResolvedId(before, Some(ident)))
               else c.active == before.active
  {
    StaysSound(e, Switch(ident));
    KeyForIs(ReadCache(e).value, ident);
  }

  /** Logging one org out removes that org alone, and the pointer if it named it. */
  lemma LogoutRemovesOne(e: Entry, ident: string)
    requires IsSound(e)
    ensures var before, c := ReadCache(e).value, ReadCache(Outcome(e, LogoutOrg(ident))).value;
            if exists k :: AnswersTo(before, k, ident)
            then exists k :: && AnswersTo(before, k, ident) && c.orgs == before.orgs - {k}
                             && c.active == if before.active == Some(k) then None else before.active
            else c == before
  {
    StaysSound(e, LogoutOrg(ident));
    KeyForIs(ReadCache(e).value, ident);
  }

  /** After logging out of everything nothing resolves, and no entry is left behind. */
  lemma LogoutAllForgets(e: Entry, pin: Option<string>)
    requires IsSound(e)
    ensures Outcome(e, LogoutAll) == Absent
    ensures var c := ReadCache(Outcome(e, LogoutAll)).value; SessionOf(c, ResolvedId(c, pin)) == None
  {
    if pin.Some? { KeyForIs(EMPTY, pin.value); }
  }

  /** An entry of white space counts as none at all; one that does not parse is left as it is by every call. */
  lemma UnreadableEntries(op: Op)
    ensures Written(Blank, op) == Written(Absent, op)
    ensures Outcome(Garbled, op) == Garbled && Written(Garbled, op) == None
  {
  }

  /** The refresh write-back gives its own org the new tokens and keeps its slug and the active pointer. */
  lemma RefreshThenResolve(e: Entry, t: AuthTokens)
    requires IsSound(e)
    ensures var before, c := ReadCache(e).value, ReadCache(Outcome(e, Refresh(t))).value;
            && SessionOf(c, ResolvedId(c, Some(t.orgId))) == Some(t)
            && c.active == before.active && t.orgId in c.orgs
            && c.orgs[t.orgId].slug == if t.orgId in before.orgs then before.orgs[t.orgId].slug else None
  {
    StaysSound(e, Refresh(t));
  }

  /**
   * Logging in under a slug makes the slug name that org exactly when no other
   * org is keyed by that text or, in key order before it, shares the slug.
   */
  lemma SlugNamesOrg(c: Cache, t: AuthTokens, slug: string)
    ensures KeyFor(SetActive(c, t, Some(slug)), slug) == Some(t.orgId) <==>
            slug == t.orgId ||
            (slug !in c.orgs && forall k :: k in Slugged(c, slug) && k != t.orgId ==> Lex.Less(t.orgId, k))
  {
    TextIsOrder();
    var c' := SetActive(c, t, Some(slug));
    assert t.orgId in Slugged(c', slug);
    assert forall k :: k != t.orgId ==> (k in Slugged(c', slug) <==> k in Slugged(c, slug));
    if slug !in c'.orgs {
      var least := Least(TextOrder(), Slugged(c', slug));
      assert IsLeast(TextOrder(), Slugged(c', slug), least);
      if least != t.orgId {
        assert TextOrder()(least, t.orgId);
        Lex.Asymmetric(least, t.orgId);
      } else {
        forall k | k in Slugged(c, slug) && k != t.orgId ensures Lex.Less(t.orgId, k) {
          assert TextOrder()(t.orgId, k);
        }
      }
    }
  }

  /** After logging one org out its name stops resolving exactly when no second org answers to it. */
  lemma LogoutForgets(c: Cache, ident: string)
    requires KeyFor(c, ident).Some?
    ensures KeyFor(ClearOrg(c, ident), ident).None? <==>
            forall k :: AnswersTo(c, k, ident) ==> k == KeyFor(c, ident).value
    ensures KeyFor(c, ident).value !in ClearOrg(c, ident).orgs
    ensures ClearOrg(c, ident).active != KeyFor(c, ident)
  {
    var c' := ClearOrg(c, ident);
    KeyForIs(c, ident);
    KeyForIs(c', ident);
    assert forall k :: AnswersTo(c', k, ident) <==> AnswersTo(c, k, ident) && k != KeyFor(c, ident).value;
  }

  lemma RunTwo(e: Entry, a: Op, b: Op)
    ensures Run(e, [a, b]) == Outcome(Outcome(e, a), b)
  {
    assert [a, b][1..] == [b] && [b][1..] == [];
    assert Run(Outcome(e, a), [b]) == Run(Outcome(Outcome(e, a), b), []);
  }

  /** The exception is real: of two orgs onboarded under one slug, logging the slug out leaves it naming the other. */
  lemma SharedSlugOutlivesLogout(t: AuthTokens, u: AuthTokens, slug: string)
    requires Lex.Less(t.orgId, u.orgId) && slug != t.orgId && slug != u.orgId
    ensures var before := Run(Absent, [Login(t, Some(slug)), Login(u, Some(slug))]);
            && ReadCache(before).Success? && KeyFor(ReadCache(before).value, slug) == Some(t.orgId)
            && var after := ReadCache(Outcome(before, LogoutOrg(slug)));
               after.Success? && SessionOf(after.value, ResolvedId(after.value, Some(slug))) == Some(u)
  {
    Lex.Irreflexive(t.orgId);
    var c1 := SetActive(EMPTY, t, Some(slug));
    var c2 := SetActive(c1, u, Some(slug));
    assert Outcome(Absent, Login(t, Some(slug))) == Json(c1);
    assert Outcome(Json(c1), Login(u, Some(slug))) == Json(c2);
    RunTwo(Absent, Login(t, Some(slug)), Login(u, Some(slug)));
    TextIsOrder();
    assert Slugged(c2, slug) == {t.orgId, u.orgId};
    LeastIsUnique(TextOrder(), Slugged(c2, slug), t.orgId);
    var c3 := ClearOrg(c2, slug);
    assert Slugged(c3, slug) == {u.orgId};
    LeastIsUnique(TextOrder(), Slugged(c3, slug), u.orgId);
  }

  /** Migrating again changes nothing, and migrating never replaces a cached session or a pointer. */
  lemma MigrationIsIdempotent(e: Entry, t: AuthTokens)
    requires IsSound(e)
    ensures var c, c' := ReadCache(e).value, ReadCache(Outcome(e, Migrate(t))).value;
            && Outcome(Outcome(e, Migrate(t)), Migrate(t)) == Outcome(e, Migrate(t))
            && (forall k :: k in c.orgs ==> k in c'.orgs && c'.orgs[k] == c.orgs[k])
            && (c.active.Some? ==> c'.active == c.active)
            && (t.orgId !in c.orgs ==> SessionOf(c', Some(t.orgId)) == Some(t))
            && (c.active.None? ==> c'.active == Some(t.orgId))
  {
    StaysSound(e, Migrate(t));
    StaysSound(Outcome(e, Migrate(t)), Migrate(t));
  }

  // ------------------------------------------------------------- the live cache

  class OrgTokenCache {
    var entry: Entry

    constructor ()
      ensures entry == Absent
    {
      entry := Absent;
    }

    method FindKey(c: Cache, ident: string) returns (key: Option<string>)
      ensures key == KeyFor(c, ident)
    {
      TextIsOrder();
      if ident in c.orgs { return Some(ident); }
      var slugged := set k | k in c.orgs && c.orgs[k].slug == Some(ident);
      assert slugged == Slugged(c, ident);
      if slugged == {} { return None; }
      var k := PickLeast(TextOrder(), slugged);
      LeastIsUnique(TextOrder(), slugged, k);
      key := Some(k);
    }

    method Resolve(pin: Option<string>) returns (r: Result<Option<AuthTokens>, TokenError>)
      ensures r == match ReadCache(entry)
                   case Failure(error) => Failure(error)
                   case Success(c) => Success(SessionOf(c, ResolvedId(c, pin)))
    {
      var read := ReadCache(entry);
      if read.Failure? { return Failure(read.error); }
      var id := read.value.active;
      if pin.Some? { id := FindKey(read.value, pin.value); }
      r := Success(SessionOf(read.value, id));
    }

    method Store(t: AuthTokens, slug: Option<string>) returns (r: Result<(), TokenError>)
      modifies this
      ensures entry == Outcome(old(entry), Login(t, slug)) && (r.Success? <==> old(entry) != Garbled)
    {
      var read := ReadCache(entry);
      if read.Failure? { return Failure(read.error); }
      var cache := read.value;
      var kept := if slug.Some? then slug else if t.orgId in cache.orgs then cache.orgs[t.orgId].slug else None;
      cache := cache.(orgs := cache.orgs[t.orgId := SessionFrom(t, kept)]);
      cache := cache.(active := Some(t.orgId));
      entry := WriteCache(cache);
      r := Success(());
    }

    method WriteBack(t: AuthTokens) returns (r: Result<(), TokenError>)
      modifies this
      ensures entry == Outcome(old(entry), Refresh(t)) && (r.Success? <==> old(entry) != Garbled)
    {
      var read := ReadCache(entry);
      if read.Failure? { return Failure(read.error); }
      var kept := if t.orgId in read.value.orgs then read.value.orgs[t.orgId].slug else None;
      entry := WriteCache(read.value.(orgs := read.value.orgs[t.orgId := SessionFrom(t, kept)]));
      r := Success(());
    }

    method SwitchTo(ident: string) returns (r: Result<bool, TokenError>)
      modifies this
      ensures entry == Outcome(old(entry), Switch(ident))
      ensures r == match ReadCache(old(entry))
                   case Failure(error) => Failure(error)
                   case Success(c) => Success(KeyFor(c, ident).Some?)
    {
      var read := ReadCache(entry);
      if read.Failure? { return Failure(read.error); }
      var key := FindKey(read.value, ident);
      if key.None? { return Success(false); }
      entry := WriteCache(read.value.(active := key));
      r := Success(true);
    }

    method Clear(ident: string) returns (r: Result<bool, TokenError>)
      modifies this
      ensures entry == Outcome(old(entry), LogoutOrg(ident))
      ensures r == match ReadCache(old(entry))
                   case Failure(error) => Failure(error)
                   case Success(c) => Success(KeyFor(c, ident).Some?)
    {
      var read := ReadCache(entry);
      if read.Failure? { return Failure(read.error); }
      var cache := read.value;
      var key := FindKey(cache, ident);
      if key.None? { return Success(false); }
      cache := cache.(orgs := cache.orgs - {key.value});
      if cache.active == key { cache := cache.(active := None); }
      entry := WriteCache(cache);
      r := Success(true);
    }

    /** An entry that does not parse is reported, not deleted. */
    method ClearAll() returns (r: Result<nat, TokenError>)
      modifies this
      ensures entry == Outcome(old(entry), LogoutAll) && entry == if old(entry) == Garbled then Garbled else Absent
      ensures r == match ReadCache(old(entry))
                   case Failure(error) => Failure(error)
                   case Success(c) => Success(|c.orgs|)
    {
      var read := ReadCache(entry);
      if read.Failure? { return Failure(read.error); }
      entry := Absent;
      r := Success(|read.value.orgs|);
    }

    method LiftLegacy(t: AuthTokens) returns (r: Result<(), TokenError>)
      modifies this
      ensures entry == Outcome(old(entry), Migrate(t)) && (r.Success? <==> old(entry) != Garbled)
    {
      var read := ReadCache(entry);
      if read.Failure? { return Failure(read.error); }
      var cache := read.value;
      if t.orgId !in cache.orgs { cache := cache.(orgs := cache.orgs[t.orgId := SessionFrom(t, None)]); }
      if cache.active.None? { cache := cache.(active := Some(t.orgId)); }
      entry := WriteCache(cache);
      r := Success(());
    }
  }

  lemma LeastIsUnique<K(!new)>(less: (K, K) -> bool, s: set<K>, m: K)
    requires IsOrder(less) && s != {} && IsLeast(less, s, m)
    ensures Least(less, s) == m
  {
  }
}
