/** The token-aware sliding window over source lines (chunker.rs). */
module SlidingWindow {
  import opened Wrappers
  import opened Text

  datatype ChunkKind = Verbatim | Semantic

  datatype Chunk = Chunk(filePath: string, language: string, kind: ChunkKind, name: Option<string>,
                         startLine: nat, endLine: nat, content: string,
                         docstring: Option<string>, parentScope: Option<string>,
                         summary: Option<string>, inTestCode: bool)

  /** Lines [start, end), counted from 0. */
  datatype Window = Window(start: nat, end: nat)

  // ------------------------------------------------------------------- widths

  /** Characters of lines [i, j) joined by newlines. */
  function Width(lines: seq<string>, i: nat, j: nat): nat
    requires j <= |lines|
  {
    if j <= i then 0 else Width(lines, i, j - 1) + |lines[j - 1]| + if j - 1 > i then 1 else 0
  }

  /** Characters of lines [i, j), each with a newline of its own. */
  function Overlap(lines: seq<string>, i: nat, j: nat): nat
    requires j <= |lines|
    decreases j - i
  {
    if j <= i then 0 else |lines[i]| + 1 + Overlap(lines, i + 1, j)
  }

  function Join(lines: seq<string>): string {
    if lines == [] then ""
    else if |lines| == 1 then lines[0]
    else Join(lines[..|lines| - 1]) + "\n" + lines[|lines| - 1]
  }

  lemma {:induction false} WidthIsJoinedLength(lines: seq<string>, i: nat, j: nat)
    requires i <= j <= |lines|
    ensures |Join(lines[i..j])| == Width(lines, i, j)
  {
    if i < j {
      WidthIsJoinedLength(lines, i, j - 1);
      assert lines[i..j][..j - i - 1] == lines[i..j - 1];
    }
  }

  lemma {:induction false} WidthMonotone(lines: seq<string>, i: nat, j: nat, k: nat)
    requires j <= k <= |lines|
    ensures Width(lines, i, j) <= Width(lines, i, k)
  {
    if j < k { WidthMonotone(lines, i, j, k - 1); }
  }

  lemma {:induction false} WidthFromLeft(lines: seq<string>, i: nat, j: nat)
    requires i < j <= |lines|
    ensures Width(lines, i, j) == |lines[i]| + (if i + 1 < j then 1 + Width(lines, i + 1, j) else 0)
  {
    if i + 1 < j { WidthFromLeft(lines, i, j - 1); }
  }

  /** Counting a newline per line is counting the joins and one more. */
  lemma {:induction false} OverlapIsWidth(lines: seq<string>, i: nat, j: nat)
    requires i < j <= |lines|
    ensures Overlap(lines, i, j) == Width(lines, i, j) + 1
    decreases j - i
  {
    WidthFromLeft(lines, i, j);
    if i + 1 < j { OverlapIsWidth(lines, i + 1, j); }
  }

  // -------------------------------------------------------------- the windows

  /** Within budget or a single line, and the next line would not have fitted. */
  ghost predicate IsFull(lines: seq<string>, budget: nat, w: Window) {
    && w.start < w.end <= |lines|
    && (Width(lines, w.start, w.end) <= budget || w.end == w.start + 1)
    && (w.end < |lines| ==> Width(lines, w.start, w.end + 1) > budget)
  }

  /** `next` backs up from `w`'s end as far as one eighth of the budget allows, always past `w`'s start. */
  ghost predicate Follows(lines: seq<string>, budget: nat, w: Window, next: nat) {
    && w.start < next <= w.end < |lines|
    && Overlap(lines, next, w.end) <= budget / 8
    && (next == w.start + 1 || Overlap(lines, next - 1, w.end) > budget / 8)
  }

  /** Full windows from line 0 on, each following its predecessor. */
  ghost predicate IsChain(lines: seq<string>, budget: nat, ws: seq<Window>) {
    && (ws != [] ==> ws[0].start == 0)
    && (forall i :: 0 <= i < |ws| ==> IsFull(lines, budget, ws[i]))
    && (forall i :: 0 < i < |ws| ==> Follows(lines, budget, ws[i - 1], ws[i].start))
  }

  ghost predicate IsWindowing(lines: seq<string>, budget: nat, ws: seq<Window>) {
    if lines == [] then ws == [] else ws != [] && IsChain(lines, budget, ws) && ws[|ws| - 1].end == |lines|
  }

  lemma ChainExtend(lines: seq<string>, budget: nat, ws: seq<Window>, w: Window)
    requires IsChain(lines, budget, ws) && IsFull(lines, budget, w)
    requires if ws == [] then w.start == 0 else Follows(lines, budget, ws[|ws| - 1], w.start)
    ensures IsChain(lines, budget, ws + [w])
  {
  }

  /** The overlap always fits the next window, so its end never goes back. */
  lemma EndNeverGoesBack(lines: seq<string>, budget: nat, w: Window, next: Window)
    requires IsFull(lines, budget, w) && IsFull(lines, budget, next) && Follows(lines, budget, w, next.start)
    ensures w.end <= next.end
  {
    if next.end < w.end {
      OverlapIsWidth(lines, next.start, w.end);
      WidthMonotone(lines, next.start, next.end + 1, w.end);
    }
  }

  /** Starts strictly increase, ends never go back, no line is skipped. */
  lemma WindowsAdvance(lines: seq<string>, budget: nat, ws: seq<Window>)
    requires IsWindowing(lines, budget, ws)
    ensures forall i :: 0 < i < |ws| ==>
              ws[i - 1].start < ws[i].start <= ws[i - 1].end <= ws[i].end
  {
    forall i | 0 < i < |ws| ensures ws[i - 1].end <= ws[i].end {
      EndNeverGoesBack(lines, budget, ws[i - 1], ws[i]);
    }
  }

  lemma {:induction false} StartsOutrunIndices(lines: seq<string>, budget: nat, ws: seq<Window>, i: nat)
    requires IsWindowing(lines, budget, ws) && i < |ws|
    ensures i <= ws[i].start
  {
    if i > 0 { StartsOutrunIndices(lines, budget, ws, i - 1); }
  }

  /** There are at most as many windows as lines, for every budget including 0. */
  lemma NoMoreWindowsThanLines(lines: seq<string>, budget: nat, ws: seq<Window>)
    requires IsWindowing(lines, budget, ws)
    ensures |ws| <= |lines|
  {
    if lines != [] { StartsOutrunIndices(lines, budget, ws, |ws| - 1); }
  }

  lemma EndDetermined(lines: seq<string>, budget: nat, a: Window, b: Window)
    requires IsFull(lines, budget, a) && IsFull(lines, budget, b) && a.start == b.start
    ensures b.end <= a.end
  {
    if a.end < b.end { WidthMonotone(lines, a.start, a.end + 1, b.end); }
  }

  lemma {:induction false} OverlapMonotone(lines: seq<string>, i: nat, j: nat, k: nat)
    requires i <= j <= k <= |lines|
    ensures Overlap(lines, j, k) <= Overlap(lines, i, k)
    decreases j - i
  {
    if i < j { OverlapMonotone(lines, i + 1, j, k); }
  }

  lemma StartDetermined(lines: seq<string>, budget: nat, w: Window, a: nat, b: nat)
    requires Follows(lines, budget, w, a) && Follows(lines, budget, w, b)
    ensures b <= a
  {
    if a < b { OverlapMonotone(lines, a, b - 1, w.end); }
  }

  lemma {:induction false} WindowsAgree(lines: seq<string>, budget: nat, a: seq<Window>, b: seq<Window>, i: nat)
    requires IsWindowing(lines, budget, a) && IsWindowing(lines, budget, b) && i < |a| && i < |b|
    ensures a[i] == b[i]
  {
    if i > 0 {
      WindowsAgree(lines, budget, a, b, i - 1);
      StartDetermined(lines, budget, a[i - 1], a[i].start, b[i].start);
      StartDetermined(lines, budget, a[i - 1], b[i].start, a[i].start);
    }
    EndDetermined(lines, budget, a[i], b[i]);
    EndDetermined(lines, budget, b[i], a[i]);
  }

  lemma InnerEnd(lines: seq<string>, budget: nat, ws: seq<Window>, i: nat)
    requires IsChain(lines, budget, ws) && 0 < i < |ws|
    ensures ws[i - 1].end < |lines|
  {
    assert Follows(lines, budget, ws[i - 1], ws[i].start);
  }

  lemma NotLonger(lines: seq<string>, budget: nat, a: seq<Window>, b: seq<Window>)
    requires lines != [] && IsWindowing(lines, budget, a) && IsWindowing(lines, budget, b)
    ensures |b| <= |a|
  {
    if |a| < |b| {
      WindowsAgree(lines, budget, a, b, |a| - 1);
      InnerEnd(lines, budget, b, |a|);
    }
  }

  /** The conditions leave one windowing only. */
  lemma WindowingUnique(lines: seq<string>, budget: nat, a: seq<Window>, b: seq<Window>)
    requires IsWindowing(lines, budget, a) && IsWindowing(lines, budget, b)
    ensures a == b
  {
    if lines != [] {
      NotLonger(lines, budget, a, b);
      NotLonger(lines, budget, b, a);
      forall i | 0 <= i < |a| ensures a[i] == b[i] { WindowsAgree(lines, budget, a, b, i); }
    }
  }

  // ----------------------------------------------------------- reconstruction

  /** Split at every newline, keeping empty pieces. */
  function SplitLines(s: string): seq<string>
    decreases |s|
  {
    match FirstNewline(s)
    case None => [s]
    case Some(i) => [s[..i]] + SplitLines(s[i + 1..])
  }

  lemma SplitFirst(a: string, b: string)
    requires NewlineFree(a)
    ensures SplitLines(a + "\n" + b) == [a] + SplitLines(b)
  {
    NewlineFoundAt(a, b);
    assert (a + "\n" + b)[..|a|] == a && (a + "\n" + b)[|a| + 1..] == b;
  }

  lemma Regroup(a: string, b: string, c: string)
    ensures (a + "\n" + b) + "\n" + c == a + "\n" + (b + "\n" + c)
  {
  }

  lemma SplitAppendAfter(first: string, rest: string, line: string)
    requires NewlineFree(first)
    requires SplitLines(rest + "\n" + line) == SplitLines(rest) + [line]
    ensures SplitLines((first + "\n" + rest) + "\n" + line) == SplitLines(first + "\n" + rest) + [line]
  {
    SplitFirst(first, rest);
    Regroup(first, rest, line);
    SplitFirst(first, rest + "\n" + line);
    Associative([first], SplitLines(rest), [line]);
  }

  lemma {:induction false} SplitAppend(a: string, line: string)
    requires NewlineFree(line)
    ensures SplitLines(a + "\n" + line) == SplitLines(a) + [line]
    decreases |a|
  {
    match FirstNewline(a)
    case None =>
      SplitFirst(a, line);
    case Some(i) =>
      var first, rest := a[..i], a[i + 1..];
      SplitAppend(rest, line);
      assert a == first + "\n" + rest;
      SplitAppendAfter(first, rest, line);
  }

  lemma {:induction false} SplitUndoesJoin(lines: seq<string>)
    requires lines != [] && AllNewlineFree(lines)
    ensures SplitLines(Join(lines)) == lines
  {
    if |lines| > 1 {
      var k := |lines| - 1;
      SplitUndoesJoin(lines[..k]);
      SplitAppend(Join(lines[..k]), lines[k]);
      assert lines == lines[..k] + [lines[k]];
    }
  }

  function Drop(lines: seq<string>, k: int): seq<string> {
    if 0 <= k <= |lines| then lines[k..] else []
  }

  /** The last source line shown so far. */
  function Seen(chunks: seq<Chunk>): nat {
    if |chunks| == 0 then 0 else chunks[|chunks| - 1].endLine
  }

  /** The lines of a chunk after source line `seen`. */
  function Unseen(c: Chunk, seen: nat): seq<string> { Drop(SplitLines(c.content), seen + 1 - c.startLine) }

  /** The lines of all chunks, less each one's overlap with its predecessor. */
  function Rebuilt(chunks: seq<Chunk>): seq<string> {
    if |chunks| == 0 then []
    else
      var before, c := chunks[..|chunks| - 1], chunks[|chunks| - 1];
      Rebuilt(before) + Unseen(c, Seen(before))
  }

  /** The source node being windowed; its identity is copied onto every chunk. */
  datatype Origin = Origin(filePath: string, language: string, name: Option<string>,
                           docstring: Option<string>, parentScope: Option<string>)

  /** The chunk that shows window `w` of `lines`. */
  function ChunkOf(origin: Origin, lines: seq<string>, w: Window): Chunk
    requires w.start <= w.end <= |lines|
  {
    Chunk(origin.filePath, origin.language, Verbatim, origin.name, w.start + 1, w.end, Join(lines[w.start..w.end]),
          origin.docstring, origin.parentScope, None, false)
  }

  ghost predicate Shows(origin: Origin, lines: seq<string>, chunks: seq<Chunk>, ws: seq<Window>) {
    && |chunks| == |ws|
    && (forall i :: 0 <= i < |ws| ==> ws[i].start <= ws[i].end <= |lines| && chunks[i] == ChunkOf(origin, lines, ws[i]))
  }

  /** The window a chunk shows, read off its line numbers. */
  function WindowOf(c: Chunk): Window { Window(if c.startLine == 0 then 0 else c.startLine - 1, c.endLine) }

  function WindowsOf(chunks: seq<Chunk>): (ws: seq<Window>)
    ensures |ws| == |chunks| && forall i :: 0 <= i < |chunks| ==> ws[i] == WindowOf(chunks[i])
  {
    seq(|chunks|, i requires 0 <= i < |chunks| => WindowOf(chunks[i]))
  }

  lemma ShownWindows(origin: Origin, lines: seq<string>, chunks: seq<Chunk>, ws: seq<Window>)
    requires Shows(origin, lines, chunks, ws)
    ensures WindowsOf(chunks) == ws
  {
  }

  predicate AllNewlineFree(lines: seq<string>) {
    forall i :: 0 <= i < |lines| ==> NewlineFree(lines[i])
  }

  lemma SliceNewlineFree(lines: seq<string>, a: nat, b: nat)
    requires AllNewlineFree(lines) && a <= b <= |lines|
    ensures AllNewlineFree(lines[a..b])
  {
    forall i | 0 <= i < b - a ensures NewlineFree(lines[a..b][i]) {
      assert lines[a..b][i] == lines[a + i];
    }
  }

  lemma SliceOfSlice(lines: seq<string>, a: nat, b: nat, c: nat)
    requires a <= b <= c <= |lines|
    ensures lines[a..c][b - a..] == lines[b..c]
  {
  }

  lemma UnseenLines(origin: Origin, lines: seq<string>, w: Window, seen: nat)
    requires AllNewlineFree(lines) && w.start <= seen <= w.end <= |lines| && w.start < w.end
    ensures Unseen(ChunkOf(origin, lines, w), seen) == lines[seen..w.end]
  {
    SliceNewlineFree(lines, w.start, w.end);
    SplitUndoesJoin(lines[w.start..w.end]);
    SliceOfSlice(lines, w.start, seen, w.end);
  }

  lemma Glue(lines: seq<string>, a: nat, b: nat)
    requires a <= b <= |lines|
    ensures lines[..a] + lines[a..b] == lines[..b]
  {
  }

  lemma {:induction false} RebuiltPrefix(origin: Origin, lines: seq<string>, budget: nat, chunks: seq<Chunk>,
                                         ws: seq<Window>, n: nat)
    requires IsWindowing(lines, budget, ws) && Shows(origin, lines, chunks, ws) && 0 < n <= |ws|
    requires AllNewlineFree(lines)
    ensures ws[n - 1].end <= |lines| && Rebuilt(chunks[..n]) == lines[..ws[n - 1].end]
  {
    assert chunks[..n] == chunks[..n - 1] + [chunks[n - 1]];
    if n == 1 {
      UnseenLines(origin, lines, ws[0], 0);
      Glue(lines, 0, ws[0].end);
    } else {
      RebuiltPrefix(origin, lines, budget, chunks, ws, n - 1);
      WindowsAdvance(lines, budget, ws);
      UnseenLines(origin, lines, ws[n - 1], ws[n - 2].end);
      Glue(lines, ws[n - 2].end, ws[n - 1].end);
    }
  }

  /** The chunks alone give back exactly the list of source lines. */
  lemma ChunksRebuildLines(origin: Origin, source: string, budget: nat, chunks: seq<Chunk>, ws: seq<Window>)
    requires IsWindowing(Lines(source), budget, ws) && Shows(origin, Lines(source), chunks, ws)
    ensures Rebuilt(chunks) == Lines(source)
  {
    var lines := Lines(source);
    if lines != [] {
      forall i | 0 <= i < |lines| ensures NewlineFree(lines[i]) { LinesHaveNoNewline(source, i); }
      RebuiltPrefix(origin, lines, budget, chunks, ws, |ws|);
      assert chunks[..|ws|] == chunks;
    }
  }

  // ----------------------------------------------------------- sliding_window

  /** The end of the window opening at `start`. */
  method FindEnd(lines: seq<string>, lineChars: seq<nat>, budgetChars: nat, start: nat) returns (end: nat)
    requires |lineChars| == |lines| && forall i :: 0 <= i < |lines| ==> lineChars[i] == |lines[i]|
    requires start < |lines|
    ensures IsFull(lines, budgetChars, Window(start, end))
  {
    end := start;
    var acc := 0;
    while end < |lines|
      invariant start <= end <= |lines| && acc == Width(lines, start, end)
      invariant acc <= budgetChars || end <= start + 1
    {
      var add := lineChars[end] + if end > start then 1 else 0;
      if end > start && acc + add > budgetChars { break; }
      acc := acc + add;
      end := end + 1;
    }
  }

  /** Where the window after [start, end) opens. */
  method FindNextStart(lines: seq<string>, lineChars: seq<nat>, overlapChars: nat, start: nat, end: nat)
    returns (nextStart: nat)
    requires |lineChars| == |lines| && forall i :: 0 <= i < |lines| ==> lineChars[i] == |lines[i]|
    requires start < end < |lines|
    ensures start < nextStart <= end && Overlap(lines, nextStart, end) <= overlapChars
    ensures nextStart == start + 1 || Overlap(lines, nextStart - 1, end) > overlapChars
  {
    nextStart := end;
    var overlap := 0;
    while nextStart > start + 1
      invariant start < nextStart <= end && overlap == Overlap(lines, nextStart, end) <= overlapChars
    {
      var candidate := lineChars[nextStart - 1] + 1;
      if overlap + candidate > overlapChars { break; }
      overlap := overlap + candidate;
      nextStart := nextStart - 1;
    }
  }

  /** The windowing loop; each chunk shows its own window's lines. */
  method WindowLines(origin: Origin, lines: seq<string>, budgetChars: nat) returns (chunks: seq<Chunk>)
    ensures IsWindowing(lines, budgetChars, WindowsOf(chunks)) && Shows(origin, lines, chunks, WindowsOf(chunks))
  {
    chunks := [];
    ghost var ws: seq<Window> := [];
    if |lines| == 0 { return; }
    var overlapChars := budgetChars / 8;
    var lineChars := seq(|lines|, i requires 0 <= i < |lines| => |lines[i]|);
    var start := 0;
    while start < |lines|
      invariant start < |lines|
      invariant Shows(origin, lines, chunks, ws) && IsChain(lines, budgetChars, ws)
      invariant if ws == [] then start == 0 else Follows(lines, budgetChars, ws[|ws| - 1], start)
    {
      var end := FindEnd(lines, lineChars, budgetChars, start);
      ChainExtend(lines, budgetChars, ws, Window(start, end));
      chunks := chunks + [ChunkOf(origin, lines, Window(start, end))];
      ws := ws + [Window(start, end)];
      if end >= |lines| { break; }
      start := FindNextStart(lines, lineChars, overlapChars, start, end);
    }
    ShownWindows(origin, lines, chunks, ws);
  }

  /** The text of `c` is within the budget or one line, and the next line joined on would not have fitted. */
  predicate FillsBudget(lines: seq<string>, budget: nat, c: Chunk) {
    && (|c.content| <= budget || c.endLine == c.startLine)
    && (c.endLine < |lines| ==> |c.content| + 1 + |lines[c.endLine]| > budget)
  }

  /** The lines `c` shows again, each with its line break, come to at most `most` characters. */
  predicate SharesAtMost(lines: seq<string>, most: nat, before: Chunk, c: Chunk) {
    0 < c.startLine <= before.endLine <= |lines| ==> |Join(lines[c.startLine - 1..before.endLine])| + 1 <= most
  }

  lemma ContentFits(origin: Origin, lines: seq<string>, budget: nat, chunks: seq<Chunk>, i: nat)
    requires IsWindowing(lines, budget, WindowsOf(chunks)) && Shows(origin, lines, chunks, WindowsOf(chunks))
    requires i < |chunks|
    ensures FillsBudget(lines, budget, chunks[i])
    ensures i > 0 ==> SharesAtMost(lines, budget / 8, chunks[i - 1], chunks[i])
  {
    var ws := WindowsOf(chunks);
    var w := ws[i];
    assert IsFull(lines, budget, w);
    WidthIsJoinedLength(lines, w.start, w.end);
    if i > 0 && w.start < ws[i - 1].end {
      assert Follows(lines, budget, ws[i - 1], w.start);
      OverlapIsWidth(lines, w.start, ws[i - 1].end);
      WidthIsJoinedLength(lines, w.start, ws[i - 1].end);
    }
  }

  lemma ShowsOwnLines(origin: Origin, source: string, budget: nat, chunks: seq<Chunk>, i: nat)
    requires IsWindowing(Lines(source), budget, WindowsOf(chunks))
    requires Shows(origin, Lines(source), chunks, WindowsOf(chunks))
    requires i < |chunks|
    ensures var c := chunks[i];
            && 1 <= c.startLine <= c.endLine <= |Lines(source)|
            && SplitLines(c.content) == Lines(source)[c.startLine - 1..c.endLine]
  {
    var lines, w := Lines(source), WindowsOf(chunks)[i];
    assert IsFull(lines, budget, w);
    forall k | 0 <= k < |lines| ensures NewlineFree(lines[k]) { LinesHaveNoNewline(source, k); }
    SliceNewlineFree(lines, w.start, w.end);
    SplitUndoesJoin(lines[w.start..w.end]);
  }

  /** The windows of `source` for a cap of `tokenCap` tokens at four characters each. */
  method SlidingWindow(origin: Origin, source: string, tokenCap: nat) returns (chunks: seq<Chunk>)
    ensures IsWindowing(Lines(source), tokenCap * 4, WindowsOf(chunks))
    ensures Shows(origin, Lines(source), chunks, WindowsOf(chunks))
    ensures forall i :: 0 <= i < |chunks| ==> FillsBudget(Lines(source), tokenCap * 4, chunks[i])
    ensures forall i :: 0 < i < |chunks| ==> SharesAtMost(Lines(source), tokenCap * 4 / 8, chunks[i - 1], chunks[i])
    ensures Rebuilt(chunks) == Lines(source)
    ensures forall i :: 0 <= i < |chunks| ==>
              var c := chunks[i];
              && c.filePath == origin.filePath && c.language == origin.language && c.kind == Verbatim
              && c.name == origin.name && c.docstring == origin.docstring && c.parentScope == origin.parentScope
              && c.summary == None && !c.inTestCode
              && 1 <= c.startLine <= c.endLine <= |Lines(source)|
              && SplitLines(c.content) == Lines(source)[c.startLine - 1..c.endLine]
  {
    chunks := WindowLines(origin, Lines(source), tokenCap * 4);
    forall i | 0 <= i < |chunks|
      ensures FillsBudget(Lines(source), tokenCap * 4, chunks[i])
      ensures i > 0 ==> SharesAtMost(Lines(source), tokenCap * 4 / 8, chunks[i - 1], chunks[i])
    {
      ContentFits(origin, Lines(source), tokenCap * 4, chunks, i);
    }
    forall i | 0 <= i < |chunks|
      ensures 1 <= chunks[i].startLine <= chunks[i].endLine <= |Lines(source)|
      ensures SplitLines(chunks[i].content) == Lines(source)[chunks[i].startLine - 1..chunks[i].endLine]
    {
      ShowsOwnLines(origin, source, tokenCap * 4, chunks, i);
    }
    ChunksRebuildLines(origin, source, tokenCap * 4, chunks, WindowsOf(chunks));
  }
}
