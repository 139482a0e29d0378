/**
 * Ids minted from a row's own creation time (uuid_v7.rs), in the layout of
 * RFC 9562 section 5.7. The first 48 bits hold the milliseconds, wrapped there
 * when the time is outside that range; then come the version nibble, twelve
 * random bits, the two variant bits and 62 more random ones. The text form is
 * lower-case hex, so ids compare as strings the way their bytes compare.
 */
module UuidV7 {
  import Lex

  const I64_MAX: int := 0x7fff_ffff_ffff_ffff
  const TWO_48: int := 0x1_0000_0000_0000

  type Bytes = s: seq<nat> | forall i :: 0 <= i < |s| ==> s[i] < 256 witness []

  /** Unix seconds to milliseconds: negatives clamp to 0, the product saturates. */
  function Millis(createdAt: int): nat {
    var ms := (if createdAt < 0 then 0 else createdAt) * 1000;
    if ms > I64_MAX then I64_MAX else ms
  }

  /** The low `n` bytes of `v`, most significant first. */
  function BigEndian(v: nat, n: nat): (r: Bytes)
    ensures |r| == n
  {
    if n == 0 then [] else BigEndian(v / 256, n - 1) + [v % 256]
  }

  function Value(b: Bytes): nat {
    if |b| == 0 then 0 else Value(b[..|b| - 1]) * 256 + b[|b| - 1]
  }

  function Pow256(n: nat): (r: nat)
    ensures r > 0
  {
    if n == 0 then 1 else 256 * Pow256(n - 1)
  }

  /** The ten bytes that are fully random in a version 4 id. */
  function RandomTail(entropy: Bytes): (r: Bytes)
    requires |entropy| == 16
    ensures |r| == 10
  {
    entropy[..6] + entropy[9..13]
  }

  function Layout(millis: nat, tail: Bytes): (r: Bytes)
    requires |tail| == 10
    ensures |r| == 16
  {
    BigEndian(millis, 6) + [0x70 + tail[0] % 16, tail[1], 0x80 + tail[2] % 64] + tail[3..]
  }

  function HexDigit(d: nat): char
    requires d < 16
  {
    if d < 10 then '0' + d as char else 'a' + (d - 10) as char
  }

  function HexByte(b: nat): string
    requires b < 256
  {
    [HexDigit(b / 16), HexDigit(b % 16)]
  }

  function Hyphen(i: nat): string { if i == 4 || i == 6 || i == 8 || i == 10 then "-" else "" }

  /** Canonical text from byte `i` on: lower-case hex, hyphens before bytes 4, 6, 8 and 10. */
  function TextFrom(b: Bytes, i: nat): string
    requires i <= |b|
    decreases |b| - i
  {
    if i == |b| then "" else Hyphen(i) + (HexByte(b[i]) + TextFrom(b, i + 1))
  }

  function Text(b: Bytes): string { TextFrom(b, 0) }

  function UuidV7At(createdAt: int, entropy: Bytes): string
    requires |entropy| == 16
  {
    Text(Layout(Millis(createdAt), RandomTail(entropy)))
  }

  // ----------------------------------------------------- numbers, bytes, text

  /** `k` is the first place where `a` and `b` differ, and `a` is smaller there. */
  predicate SmallerAt(a: seq<nat>, b: seq<nat>, k: nat) {
    k < |a| && k < |b| && (forall i :: 0 <= i < k ==> a[i] == b[i]) && a[k] < b[k]
  }

  lemma {:induction false} SmallerNumber(u: nat, v: nat, n: nat) returns (k: nat)
    requires u < v < Pow256(n)
    ensures k < n && SmallerAt(BigEndian(u, n), BigEndian(v, n), k)
  {
    var a, b := BigEndian(u / 256, n - 1), BigEndian(v / 256, n - 1);
    if u / 256 < v / 256 {
      k := SmallerNumber(u / 256, v / 256, n - 1);
    } else {
      k := n - 1;
      assert a == b;
    }
  }

  lemma {:induction false} BigEndianValue(v: nat, n: nat)
    ensures Value(BigEndian(v, n)) == v % Pow256(n)
  {
    if n > 0 {
      BigEndianValue(v / 256, n - 1);
      assert BigEndian(v, n)[..n - 1] == BigEndian(v / 256, n - 1);
      ModSplit(v, Pow256(n - 1));
    }
  }

  lemma ModSplit(v: nat, m: nat)
    requires m > 0
    ensures (v / 256) % m * 256 + v % 256 == v % (256 * m)
  {
    var q, r := v / 256 / m, v / 256 % m;
    assert v / 256 == q * m + r;
    assert v == (256 * m) * q + (r * 256 + v % 256);
    RemainderUnique(v, 256 * m, q, r * 256 + v % 256);
  }

  lemma RemainderUnique(v: nat, m: nat, q: nat, r: nat)
    requires r < m && v == m * q + r
    ensures v % m == r
  {
    var q', r' := v / m, v % m;
    assert m * (q - q') == r' - r;
    if q < q' { MultipleAtLeast(m, q' - q); }
    if q > q' { MultipleAtLeast(m, q - q'); }
  }

  lemma MultipleAtLeast(m: nat, d: nat)
    requires d > 0
    ensures m * d >= m
  {
  }

  lemma ByteOrder(x: nat, y: nat, s: string, t: string)
    requires x < y < 256
    ensures Lex.Less(HexByte(x) + s, HexByte(y) + t)
  {
    var hx, lx, hy, ly := HexDigit(x / 16), HexDigit(x % 16), HexDigit(y / 16), HexDigit(y % 16);
    assert HexByte(x) + s == [hx] + ([lx] + s) && HexByte(y) + t == [hy] + ([ly] + t);
    if x / 16 == y / 16 {
      Lex.CommonPrefix([hx], [lx] + s, [ly] + t);
    }
  }

  lemma {:induction false} SmallerText(a: Bytes, b: Bytes, i: nat, k: nat)
    requires |a| == |b| && i <= k && SmallerAt(a, b, k)
    ensures Lex.Less(TextFrom(a, i), TextFrom(b, i))
    decreases k - i
  {
    var ta, tb := TextFrom(a, i + 1), TextFrom(b, i + 1);
    Lex.CommonPrefix(Hyphen(i), HexByte(a[i]) + ta, HexByte(b[i]) + tb);
    if i < k {
      SmallerText(a, b, i + 1, k);
      Lex.CommonPrefix(HexByte(a[i]), ta, tb);
    } else {
      ByteOrder(a[i], b[i], ta, tb);
    }
  }

  lemma {:induction false} FirstDifference(a: Bytes, b: Bytes, i: nat) returns (k: nat)
    requires |a| == |b| && i <= |a| && a != b && forall j :: 0 <= j < i ==> a[j] == b[j]
    ensures SmallerAt(a, b, k) || SmallerAt(b, a, k)
    decreases |a| - i
  {
    if a[i] != b[i] {
      k := i;
    } else {
      k := FirstDifference(a, b, i + 1);
    }
  }

  /** Text order is byte order, and different bytes have different texts. */
  lemma TextOrder(a: Bytes, b: Bytes)
    requires |a| == |b|
    ensures Lex.Less(Text(a), Text(b)) <==> exists k :: SmallerAt(a, b, k)
    ensures Text(a) == Text(b) ==> a == b
  {
    if a == b {
      Lex.Irreflexive(Text(a));
    } else {
      var k := FirstDifference(a, b, 0);
      if SmallerAt(a, b, k) {
        SmallerText(a, b, 0, k);
      } else {
        SmallerText(b, a, 0, k);
        Lex.Asymmetric(Text(b), Text(a));
      }
      Lex.Irreflexive(Text(a));
    }
  }

  // ------------------------------------------------------------ time ordering

  /** The 48 bits of time an id carries. */
  function Stamp(createdAt: int): nat { Millis(createdAt) % TWO_48 }

  lemma {:induction false} BigEndianMod(v: nat, n: nat)
    ensures BigEndian(v, n) == BigEndian(v % Pow256(n), n)
  {
    if n > 0 {
      ModSplit(v, Pow256(n - 1));
      BigEndianMod(v / 256, n - 1);
      var r := (v / 256) % Pow256(n - 1);
      assert (r * 256 + v % 256) / 256 == r && (r * 256 + v % 256) % 256 == v % 256;
    }
  }

  lemma SmallerLayout(s: nat, t: nat, r1: Bytes, r2: Bytes) returns (k: nat)
    requires |r1| == |r2| == 10 && s % TWO_48 < t % TWO_48
    ensures SmallerAt(Layout(s, r1), Layout(t, r2), k)
  {
    BigEndianMod(s, 6);
    BigEndianMod(t, 6);
    k := SmallerNumber(s % TWO_48, t % TWO_48, 6);
  }

  lemma EarlierStampSortsFirst(t1: int, e1: Bytes, t2: int, e2: Bytes)
    requires |e1| == |e2| == 16 && Stamp(t1) < Stamp(t2)
    ensures Lex.Less(UuidV7At(t1, e1), UuidV7At(t2, e2))
  {
    var r1, r2 := RandomTail(e1), RandomTail(e2);
    var k := SmallerLayout(Millis(t1), Millis(t2), r1, r2);
    TextOrder(Layout(Millis(t1), r1), Layout(Millis(t2), r2));
  }

  /**
   * One id sorts before another whatever the random bits, exactly when its
   * 48-bit time stamp is smaller.
   */
  lemma OrderIsStampOrder(t1: int, t2: int)
    ensures (forall e1: Bytes, e2: Bytes :: |e1| == |e2| == 16 ==> Lex.Less(UuidV7At(t1, e1), UuidV7At(t2, e2)))
       <==> Stamp(t1) < Stamp(t2)
  {
    if Stamp(t1) < Stamp(t2) {
      forall e1: Bytes, e2: Bytes | |e1| == |e2| == 16 ensures Lex.Less(UuidV7At(t1, e1), UuidV7At(t2, e2)) {
        EarlierStampSortsFirst(t1, e1, t2, e2);
      }
    } else {
      var e: Bytes := seq(16, _ => 0);
      if Stamp(t2) < Stamp(t1) {
        EarlierStampSortsFirst(t2, e, t1, e);
        Lex.Asymmetric(UuidV7At(t2, e), UuidV7At(t1, e));
      } else {
        BigEndianMod(Millis(t1), 6);
        BigEndianMod(Millis(t2), 6);
        assert UuidV7At(t1, e) == UuidV7At(t2, e);
        Lex.Irreflexive(UuidV7At(t1, e));
      }
      assert |e| == 16 && !Lex.Less(UuidV7At(t1, e), UuidV7At(t2, e));
    }
  }

  /** Earlier creation sorts first, for all times from 1970 whose milliseconds fit 48 bits. */
  lemma EarlierSortsFirst(t1: int, e1: Bytes, t2: int, e2: Bytes)
    requires |e1| == |e2| == 16 && 0 <= t1 < t2 && t2 * 1000 < TWO_48
    ensures Lex.Less(UuidV7At(t1, e1), UuidV7At(t2, e2))
  {
    EarlierStampSortsFirst(t1, e1, t2, e2);
  }

  /** Past 48 bits the stamp wraps: second 281474976711 sorts before second 1. */
  lemma WrappedTimeSortsEarly(e1: Bytes, e2: Bytes)
    requires |e1| == |e2| == 16
    ensures Lex.Less(UuidV7At(281474976711, e1), UuidV7At(1, e2))
  {
    assert Stamp(281474976711) == 344 && Stamp(1) == 1000;
    EarlierStampSortsFirst(281474976711, e1, 1, e2);
  }

  /**
   * The time, version, variant and random bits can be read back from the bytes:
   * whole milliseconds from 1970 as far as 64 signed bits go, of which 48 are kept.
   */
  lemma LayoutReadsBack(createdAt: int, entropy: Bytes)
    requires |entropy| == 16
    ensures var b := Layout(Millis(createdAt), RandomTail(entropy));
            && Value(b[..6]) == (if createdAt < 0 then 0
                                 else if createdAt * 1000 > 0x7fff_ffff_ffff_ffff then 0xffff_ffff_ffff
                                 else createdAt * 1000 % 0x1_0000_0000_0000)
            && b[6] / 16 == 7 && b[8] / 64 == 2
            && b[6] % 16 == entropy[0] % 16 && b[7] == entropy[1] && b[8] % 64 == entropy[2] % 64
            && b[9..12] == entropy[3..6] && b[12..] == entropy[9..13]
  {
    StampIs(createdAt);
    LayoutBytes(Millis(createdAt), RandomTail(entropy));
    var b := Layout(Millis(createdAt), RandomTail(entropy));
    assert b[12..] == b[9..][3..] && b[9..12] == b[9..][..3];
  }

  lemma StampIs(createdAt: int)
    ensures Stamp(createdAt) == if createdAt < 0 then 0
                                else if createdAt * 1000 > 0x7fff_ffff_ffff_ffff then 0xffff_ffff_ffff
                                else createdAt * 1000 % 0x1_0000_0000_0000
  {
  }

  lemma LayoutBytes(millis: nat, tail: Bytes)
    requires |tail| == 10
    ensures var b := Layout(millis, tail);
            && Value(b[..6]) == millis % TWO_48
            && b[6] == 0x70 + tail[0] % 16 && b[7] == tail[1] && b[8] == 0x80 + tail[2] % 64 && b[9..] == tail[3..]
  {
    BigEndianValue(millis, 6);
    assert Layout(millis, tail)[..6] == BigEndian(millis, 6);
    assert Pow256(6) == TWO_48;
  }

  /** Ids minted for one instant differ as soon as their 74 kept random bits do. */
  lemma SameInstantDistinct(createdAt: int, e1: Bytes, e2: Bytes)
    requires |e1| == |e2| == 16 && UuidV7At(createdAt, e1) == UuidV7At(createdAt, e2)
    ensures e1[0] % 16 == e2[0] % 16 && e1[1] == e2[1] && e1[2] % 64 == e2[2] % 64
    ensures e1[3..6] == e2[3..6] && e1[9..13] == e2[9..13]
  {
    TextOrder(Layout(Millis(createdAt), RandomTail(e1)), Layout(Millis(createdAt), RandomTail(e2)));
    LayoutReadsBack(createdAt, e1);
    LayoutReadsBack(createdAt, e2);
  }

  /** Two lower-case hex digits for each byte. */
  function Digits(b: Bytes): (t: string)
    ensures |t| == 2 * |b|
  {
    if |b| == 0 then ""
    else ["0123456789abcdef"[b[0] / 16], "0123456789abcdef"[b[0] % 16]] + Digits(b[1..])
  }

  lemma DigitIsHex(d: nat)
    requires d < 16
    ensures HexDigit(d) == "0123456789abcdef"[d]
  {
  }

  lemma {:induction false} NoHyphenBetween(b: Bytes, i: nat, j: nat)
    requires i < j <= |b| && forall m :: i < m < j ==> Hyphen(m) == ""
    ensures TextFrom(b, i) == Hyphen(i) + (Digits(b[i..j]) + TextFrom(b, j))
    decreases j - i
  {
    FirstDigits(b[i..j]);
    assert b[i..j][1..] == b[i + 1..j];
    var rest, later := Digits(b[i + 1..j]), TextFrom(b, j);
    if i + 1 < j {
      NoHyphenBetween(b, i + 1, j);
      assert "" + (rest + later) == rest + later;
    } else {
      assert rest + later == later;
    }
    Regroup(HexByte(b[i]), rest, later);
  }

  lemma FirstDigits(b: Bytes)
    requires |b| > 0
    ensures Digits(b) == HexByte(b[0]) + Digits(b[1..])
  {
    DigitIsHex(b[0] / 16);
    DigitIsHex(b[0] % 16);
  }

  lemma Regroup(a: string, b: string, c: string)
    ensures a + (b + c) == (a + b) + c
  {
  }

  lemma Dashed(whole: string, tail: string, a: string, b: string, rest: string)
    requires whole == a + tail && tail == "-" + (b + rest)
    ensures whole == a + "-" + b + rest
  {
  }

  lemma AllDashed(t: string, u: string, v: string, w: string, x: string,
                  a: string, b: string, c: string, d: string, e: string)
    requires t == a + u && u == "-" + (b + v) && v == "-" + (c + w) && w == "-" + (d + x) && x == "-" + e
    ensures t == a + "-" + b + "-" + c + "-" + d + "-" + e
  {
    Dashed(t, u, a, b, v);
    Dashed(t, v, a + "-" + b, c, w);
    Dashed(t, w, a + "-" + b + "-" + c, d, x);
  }

  // The places of the groups are parameters so that the text is taken apart group by group.
  lemma Grouped(b: Bytes, o: nat, p: nat, q: nat, r: nat, s: nat, n: nat)
    requires |b| == n == 16 && o == 0 && p == 4 && q == 6 && r == 8 && s == 10
    ensures TextFrom(b, o) ==
            Digits(b[o..p]) + "-" + Digits(b[p..q]) + "-" + Digits(b[q..r]) + "-" + Digits(b[r..s]) + "-"
            + Digits(b[s..n])
  {
    var t, u, v, w, x := TextFrom(b, o), TextFrom(b, p), TextFrom(b, q), TextFrom(b, r), TextFrom(b, s);
    NextGroup(b, o, p, "");
    NextGroup(b, p, q, "-");
    NextGroup(b, q, r, "-");
    NextGroup(b, r, s, "-");
    NextGroup(b, s, n, "-");
    assert Digits(b[s..n]) + TextFrom(b, n) == Digits(b[s..n]) && "" + (Digits(b[o..p]) + u) == Digits(b[o..p]) + u;
    AllDashed(t, u, v, w, x, Digits(b[o..p]), Digits(b[p..q]), Digits(b[q..r]), Digits(b[r..s]), Digits(b[s..n]));
  }

  lemma NextGroup(b: Bytes, i: nat, j: nat, dash: string)
    requires i < j <= |b| == 16 && dash == Hyphen(i) && forall m :: i < m < j ==> Hyphen(m) == ""
    ensures TextFrom(b, i) == dash + (Digits(b[i..j]) + TextFrom(b, j))
    ensures j == 16 ==> TextFrom(b, j) == ""
  {
    NoHyphenBetween(b, i, j);
  }

  /** The canonical text: the bytes' digits in order, in groups of 4, 2, 2, 2 and 6 bytes with hyphens between. */
  lemma TextShape(b: Bytes)
    requires |b| == 16
    ensures Text(b) == Digits(b[0..4]) + "-" + Digits(b[4..6]) + "-" + Digits(b[6..8]) + "-" + Digits(b[8..10]) + "-"
                       + Digits(b[10..16])
  {
    Grouped(b, 0, 4, 6, 8, 10, 16);
  }

  // ----------------------------------------------------- ids clients send

  /** Hex without hyphens, from byte `i` on. */
  function SimpleFrom(b: Bytes, i: nat): string
    requires i <= |b|
    decreases |b| - i
  {
    if i == |b| then "" else HexByte(b[i]) + SimpleFrom(b, i + 1)
  }

  function LowerChar(c: char): char { if 'A' <= c <= 'Z' then 'a' + (c - 'A') else c }

  predicate Folds(s: string, lower: string) {
    |s| == |lower| && forall i :: 0 <= i < |s| ==> LowerChar(s[i]) == lower[i]
  }

  /** The four spellings of an id, hex digits in either case: plain, without hyphens, in braces, as a URN. */
  ghost predicate Spells(s: string, b: Bytes) {
    || Folds(s, Text(b))
    || Folds(s, SimpleFrom(b, 0))
    || (exists t :: Folds(t, Text(b)) && s == "{" + t + "}")
    || (exists t :: Folds(t, Text(b)) && s == "urn:uuid:" + t)
  }

  /** `validate_optional_uuid_v7`: a spelling of sixteen bytes of version 7; the text is stored as it came. */
  ghost predicate IsAccepted(s: string) { exists b: Bytes :: |b| == 16 && b[6] / 16 == 7 && Spells(s, b) }
  const NIL_BYTES: Bytes := seq(16, _ => 0)

  /** The nil cursor sorts before every id of this shape, even one stamped 0. */
  lemma NilSortsFirst(millis: nat, tail: Bytes)
    requires |tail| == 10
    ensures Lex.Less(Text(NIL_BYTES), Text(Layout(millis, tail)))
  {
    var b := Layout(millis, tail);
    assert b[6] != NIL_BYTES[6];
    var k := FirstDifference(NIL_BYTES, b, 0);
    TextOrder(NIL_BYTES, b);
  }

  lemma PairStep(x: char, y: char, zeros: string, rest: string)
    requires x >= '0' && y >= '0' && (x == '0' && y == '0' ==> Lex.Less(zeros, rest))
    ensures Lex.Less("00" + zeros, [x, y] + rest)
  {
    assert "00" + zeros == ['0'] + (['0'] + zeros) && [x, y] + rest == [x] + ([y] + rest);
    if x == '0' && y == '0' {
      Lex.CommonPrefix(['0'], zeros, rest);
      Lex.CommonPrefix(['0'], ['0'] + zeros, ['0'] + rest);
    }
  }

  lemma NilUnfolds(i: nat)
    requires i < 16
    ensures TextFrom(NIL_BYTES, i) == Hyphen(i) + ("00" + TextFrom(NIL_BYTES, i + 1))
  {
  }

  /** Whatever its case, a byte's spelling is two characters from '0' up, both '0' only for byte 0. */
  lemma FoldedByte(s: string, v: nat, lower: string) returns (x: char, y: char, rest: string)
    requires v < 256 && Folds(s, HexByte(v) + lower)
    ensures s == [x, y] + rest && Folds(rest, lower)
    ensures x >= '0' && y >= '0' && (x == '0' && y == '0' ==> v == 0)
    ensures x == '0' ==> v < 16
  {
    var t := HexByte(v) + lower;
    assert t[0] == HexDigit(v / 16) && t[1] == HexDigit(v % 16) && t[2..] == lower;
    x, y, rest := s[0], s[1], s[2..];
  }

  lemma FoldedHyphen(s: string, i: nat, lower: string)
    requires Folds(s, Hyphen(i) + lower)
    ensures |Hyphen(i)| <= |s| && s == Hyphen(i) + s[|Hyphen(i)|..] && Folds(s[|Hyphen(i)|..], lower)
  {
    var h, t := |Hyphen(i)|, Hyphen(i) + lower;
    assert t[h..] == lower;
    assert forall k :: 0 <= k < h ==> t[k] == '-';
    assert s[..h] == Hyphen(i);
  }

  lemma {:induction false} HyphenatedPastNil(s: string, b: Bytes, i: nat)
    requires |b| == 16 && b[6] / 16 == 7 && i <= 6 && Folds(s, TextFrom(b, i))
    ensures Lex.Less(TextFrom(NIL_BYTES, i), s)
    decreases 6 - i
  {
    FoldedHyphen(s, i, HexByte(b[i]) + TextFrom(b, i + 1));
    var t := s[|Hyphen(i)|..];
    var x, y, rest := FoldedByte(t, b[i], TextFrom(b, i + 1));
    if i < 6 { HyphenatedPastNil(rest, b, i + 1); }
    PairStep(x, y, TextFrom(NIL_BYTES, i + 1), rest);
    NilUnfolds(i);
    Lex.CommonPrefix(Hyphen(i), "00" + TextFrom(NIL_BYTES, i + 1), t);
  }

  lemma {:induction false} SimplePastNil(s: string, b: Bytes, i: nat)
    requires |b| == 16 && i <= 4 && Folds(s, SimpleFrom(b, i))
    ensures Lex.Less(TextFrom(NIL_BYTES, i), s)
    decreases 4 - i
  {
    var x, y, rest := FoldedByte(s, b[i], SimpleFrom(b, i + 1));
    NilUnfolds(i);
    if i < 4 {
      SimplePastNil(rest, b, i + 1);
      PairStep(x, y, TextFrom(NIL_BYTES, i + 1), rest);
      assert Hyphen(i) + ("00" + TextFrom(NIL_BYTES, i + 1)) == "00" + TextFrom(NIL_BYTES, i + 1);
    } else {
      assert TextFrom(NIL_BYTES, 4)[0] == '-';
    }
  }

  /** Every id the server takes from a client sorts after the nil cursor, in whichever spelling it came. */
  lemma AcceptedPastNil(s: string)
    requires IsAccepted(s)
    ensures Lex.Less(Text(NIL_BYTES), s)
  {
    var b: Bytes :| |b| == 16 && b[6] / 16 == 7 && Spells(s, b);
    NilUnfolds(0);
    assert Text(NIL_BYTES)[0] == '0';
    if Folds(s, Text(b)) {
      HyphenatedPastNil(s, b, 0);
    } else if Folds(s, SimpleFrom(b, 0)) {
      SimplePastNil(s, b, 0);
    }
  }

  lemma {:induction false} TextIsLower(b: Bytes, i: nat)
    requires i <= |b|
    ensures Folds(TextFrom(b, i), TextFrom(b, i))
    decreases |b| - i
  {
    if i < |b| { TextIsLower(b, i + 1); }
  }

  /** A minted id is one the server would take back. */
  lemma MintedIsAccepted(createdAt: int, entropy: Bytes)
    requires |entropy| == 16
    ensures IsAccepted(UuidV7At(createdAt, entropy))
  {
    var b := Layout(Millis(createdAt), RandomTail(entropy));
    TextIsLower(b, 0);
    assert |b| == 16 && b[6] / 16 == 7 && Spells(Text(b), b);
  }
}
