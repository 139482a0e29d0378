/**
 * Pages of keys: what `WHERE key > ? ORDER BY key LIMIT ?` returns. The order is
 * any strict total one, so that row ids under `<` and note ids under byte-wise
 * text order are two instances of the same lemmas. A page is specified twice:
 * by repeated selection of the least key left, and by what `IsPage` says of it;
 * walks over many pages are proved from the second.
 */
module Pages {
  import Lex
  import opened Sets

  ghost predicate IsOrder<K(!new)>(less: (K, K) -> bool) {
    && (forall a :: !less(a, a))
    && (forall a, b, c :: less(a, b) && less(b, c) ==> less(a, c))
    && (forall a, b :: less(a, b) || a == b || less(b, a))
  }

  function IntOrder(): (int, int) -> bool { (a: int, b: int) => a < b }

  function TextOrder(): (string, string) -> bool { (a: string, b: string) => Lex.Less(a, b) }

  lemma TextIsOrder()
    ensures IsOrder(TextOrder())
  {
    var less := TextOrder();
    forall a ensures !less(a, a) { Lex.Irreflexive(a); }
    forall a, b, c | less(a, b) && less(b, c) ensures less(a, c) { Lex.Transitive(a, b, c); }
    forall a, b ensures less(a, b) || a == b || less(b, a) { Lex.Total(a, b); }
  }

  ghost predicate IsLeast<K>(less: (K, K) -> bool, s: set<K>, m: K) {
    m in s && forall x :: x in s ==> x == m || less(m, x)
  }

  lemma {:induction false} LeastExists<K(!new)>(less: (K, K) -> bool, s: set<K>)
    requires IsOrder(less) && s != {}
    ensures exists m :: IsLeast(less, s, m)
    decreases |s|
  {
    var x :| x in s;
    var rest := s - {x};
    assert forall z :: z in s ==> z == x || z in rest;
    if rest == {} {
      assert IsLeast(less, s, x);
    } else {
      LeastExists(less, rest);
      var y :| IsLeast(less, rest, y);
      assert IsLeast(less, rest, y);
      assert IsLeast(less, s, if less(x, y) then x else y);
    }
  }

  ghost function Least<K(!new)>(less: (K, K) -> bool, s: set<K>): (m: K)
    requires IsOrder(less) && s != {}
    ensures IsLeast(less, s, m)
  {
    LeastExists(less, s);
    var m :| IsLeast(less, s, m);
    m
  }

  ghost function After<K>(less: (K, K) -> bool, s: set<K>, cursor: K): set<K> { set x | x in s && less(cursor, x) }

  ghost function Page<K(!new)>(less: (K, K) -> bool, s: set<K>, cursor: K, limit: nat): seq<K>
    requires IsOrder(less)
    decreases limit
  {
    if limit == 0 || After(less, s, cursor) == {} then []
    else var m := Least(less, After(less, s, cursor)); [m] + Page(less, s, m, limit - 1)
  }

  predicate Ascending<K>(less: (K, K) -> bool, p: seq<K>) {
    forall i, j :: 0 <= i < j < |p| ==> less(p[i], p[j])
  }

  /** Ascending, inside `s`, past the cursor, within the limit, and skipping nothing up to its end. */
  ghost predicate IsPage<K>(less: (K, K) -> bool, s: set<K>, cursor: K, limit: nat, p: seq<K>) {
    && |p| <= limit && Ascending(less, p)
    && (forall i :: 0 <= i < |p| ==> p[i] in s && less(cursor, p[i]))
    && (forall x :: x in s && less(cursor, x) && (|p| < limit || (p != [] && !less(p[|p| - 1], x))) ==> x in p)
  }

  lemma PageStep<K(!new)>(less: (K, K) -> bool, s: set<K>, cursor: K, limit: nat, m: K, rest: seq<K>)
    requires IsOrder(less) && limit > 0
    requires IsLeast(less, After(less, s, cursor), m) && IsPage(less, s, m, limit - 1, rest)
    ensures IsPage(less, s, cursor, limit, [m] + rest)
  {
    var p := [m] + rest;
    forall i | 0 <= i < |p| ensures p[i] in s && less(cursor, p[i]) {
      assert i > 0 ==> p[i] == rest[i - 1];
    }
    forall x | x in s && less(cursor, x) && (|p| < limit || !less(p[|p| - 1], x)) ensures x in p {
      assert x in After(less, s, cursor);
      if x != m {
        assert x in rest;
        assert x in p[1..];
      } else {
        assert p[0] == x;
      }
    }
  }

  lemma {:induction false} PageFacts<K(!new)>(less: (K, K) -> bool, s: set<K>, cursor: K, limit: nat)
    requires IsOrder(less)
    ensures IsPage(less, s, cursor, limit, Page(less, s, cursor, limit))
    decreases limit
  {
    if limit > 0 && After(less, s, cursor) != {} {
      var m := Least(less, After(less, s, cursor));
      PageFacts(less, s, m, limit - 1);
      PageStep(less, s, cursor, limit, m, Page(less, s, m, limit - 1));
    } else {
      assert forall x :: x in s && less(cursor, x) ==> x in After(less, s, cursor);
    }
  }

  lemma PageUnfold<K(!new)>(less: (K, K) -> bool, s: set<K>, cursor: K, limit: nat, m: K)
    requires IsOrder(less) && limit > 0 && IsLeast(less, After(less, s, cursor), m)
    ensures Page(less, s, cursor, limit) == [m] + Page(less, s, m, limit - 1)
  {
    assert Least(less, After(less, s, cursor)) == m;
  }

  function ToSet<K>(p: seq<K>): set<K> { set x | x in p }

  lemma ToSetExtends<K>(p: seq<K>, k: nat)
    requires k < |p|
    ensures ToSet(p[..k + 1]) == ToSet(p[..k]) + {p[k]}
  {
  }

  lemma {:induction false} AscendingCount<K(!new)>(less: (K, K) -> bool, p: seq<K>)
    requires IsOrder(less) && Ascending(less, p)
    ensures |ToSet(p)| == |p|
  {
    if p != [] {
      var front, last := p[..|p| - 1], p[|p| - 1];
      AscendingCount(less, front);
      assert last !in ToSet(front);
      assert p == front + [last];
      assert ToSet(p) == ToSet(front) + {last};
    }
  }

  /** A page with room for everything past the cursor is everything past the cursor. */
  lemma WholePage<K(!new)>(less: (K, K) -> bool, s: set<K>, cursor: K, limit: nat)
    requires IsOrder(less) && |After(less, s, cursor)| <= limit
    ensures var p := Page(less, s, cursor, limit);
            Ascending(less, p) && ToSet(p) == After(less, s, cursor) && |p| == |After(less, s, cursor)|
  {
    var p := Page(less, s, cursor, limit);
    PageFacts(less, s, cursor, limit);
    AscendingCount(less, p);
    assert ToSet(p) <= After(less, s, cursor);
    if |p| == limit {
      SubsetFills(ToSet(p), After(less, s, cursor));
    }
  }

  /** A page takes exactly its own keys off what lies past the cursor. */
  lemma PageAdvances<K(!new)>(less: (K, K) -> bool, s: set<K>, cursor: K, limit: nat)
    requires IsOrder(less) && Page(less, s, cursor, limit) != []
    ensures var p := Page(less, s, cursor, limit);
            |After(less, s, cursor)| == |p| + |After(less, s, p[|p| - 1])|
  {
    var p := Page(less, s, cursor, limit);
    var last := p[|p| - 1];
    PageFacts(less, s, cursor, limit);
    AscendingCount(less, p);
    assert less(cursor, last);
    forall x | x in p ensures !less(last, x) {
      var i :| 0 <= i < |p| && p[i] == x;
      assert i < |p| - 1 ==> less(x, last);
    }
    assert After(less, s, cursor) == ToSet(p) + After(less, s, last);
    assert ToSet(p) !! After(less, s, last);
  }

  lemma TakeLeast<K(!new)>(whole: seq<K>, page: seq<K>, less: (K, K) -> bool, s: set<K>, cursor: K, limit: nat, m: K)
    requires IsOrder(less) && limit > 0 && IsLeast(less, After(less, s, cursor), m)
    requires whole == page + Page(less, s, cursor, limit)
    ensures whole == page + [m] + Page(less, s, m, limit - 1)
  {
    PageUnfold(less, s, cursor, limit, m);
    assert page + ([m] + Page(less, s, m, limit - 1)) == page + [m] + Page(less, s, m, limit - 1);
  }

  lemma NoneLeft<K(!new)>(whole: seq<K>, page: seq<K>, less: (K, K) -> bool, s: set<K>, cursor: K, limit: nat)
    requires IsOrder(less) && (limit == 0 || After(less, s, cursor) == {})
    requires whole == page + Page(less, s, cursor, limit)
    ensures whole == page
  {
  }

  method PickLeast<K(==,!new)>(less: (K, K) -> bool, s: set<K>) returns (m: K)
    requires IsOrder(less) && s != {}
    ensures IsLeast(less, s, m)
  {
    LeastExists(less, s);
    ghost var least :| IsLeast(less, s, least);
    assert IsLeast(less, s, least);
    m :| m in s && forall x :: x in s ==> x == m || less(m, x);
  }

  /** Selecting a page: repeatedly the least key past the last one taken. */
  method SelectPage<K(==,!new)>(less: (K, K) -> bool, s: set<K>, cursor: K, limit: nat) returns (page: seq<K>)
    requires IsOrder(less)
    ensures page == Page(less, s, cursor, limit)
  {
    page := [];
    var from := cursor;
    ghost var whole := Page(less, s, cursor, limit);
    while |page| < limit
      invariant |page| <= limit && whole == page + Page(less, s, from, limit - |page|)
      decreases limit - |page|
    {
      var rest := set x | x in s && less(from, x);
      assert rest == After(less, s, from);
      if rest == {} {
        NoneLeft(whole, page, less, s, from, limit - |page|);
        return;
      }
      var m := PickLeast(less, rest);
      TakeLeast(whole, page, less, s, from, limit - |page|, m);
      page, from := page + [m], m;
    }
    NoneLeft(whole, page, less, s, from, 0);
  }
}
