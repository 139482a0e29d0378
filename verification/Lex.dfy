/**
 * Byte-wise text order, the BINARY collation that note ids are compared under and
 * the key order of a sorted map: by the first place where two texts differ, a text
 * before its own extensions. It is shown to be a strict total order, and to ignore
 * a common prefix, which is how order on ids is reduced to order on their bytes.
 */
module Lex {
  predicate Less(a: string, b: string) {
    if b == "" then false
    else if a == "" then true
    else a[0] < b[0] || (a[0] == b[0] && Less(a[1..], b[1..]))
  }

  lemma {:induction false} Irreflexive(a: string)
    ensures !Less(a, a)
  {
    if a != "" { Irreflexive(a[1..]); }
  }

  lemma {:induction false} Transitive(a: string, b: string, c: string)
    requires Less(a, b) && Less(b, c)
    ensures Less(a, c)
  {
    if a != "" && a[0] == b[0] && b[0] == c[0] { Transitive(a[1..], b[1..], c[1..]); }
  }

  lemma {:induction false} Total(a: string, b: string)
    ensures Less(a, b) || a == b || Less(b, a)
  {
    if a != "" && b != "" && a[0] == b[0] {
      Total(a[1..], b[1..]);
      assert a == [a[0]] + a[1..] && b == [b[0]] + b[1..];
    }
  }

  lemma Asymmetric(a: string, b: string)
    requires Less(a, b)
    ensures !Less(b, a) && a != b
  {
    Irreflexive(a);
    if Less(b, a) { Transitive(a, b, a); }
  }

  lemma {:induction false} CommonPrefix(p: string, a: string, b: string)
    ensures Less(p + a, p + b) == Less(a, b)
  {
    if p == "" {
      assert p + a == a && p + b == b;
    } else {
      assert (p + a)[1..] == p[1..] + a && (p + b)[1..] == p[1..] + b;
      CommonPrefix(p[1..], a, b);
    }
  }
}
