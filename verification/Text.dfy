/**
 * Line splitting and joining on character sequences. `Lines` drops terminators,
 * counts a carriage return with its newline as one and yields no empty line after
 * a final newline; finding the first newline at or after a position, with nothing
 * before it, is what it and so the stream parsers and the chunker rest on.
 */
module Text {
  import opened Wrappers

  predicate NewlineFree(s: string) {
    forall i :: 0 <= i < |s| ==> s[i] != '\n'
  }

  /** Index of the first newline at or after `from`, if any. */
  function NewlineFrom(s: string, from: nat): (r: Option<nat>)
    requires from <= |s|
    ensures r.Some? ==> from <= r.value < |s| && s[r.value] == '\n' && forall i :: from <= i < r.value ==> s[i] != '\n'
    ensures r.None? ==> forall i :: from <= i < |s| ==> s[i] != '\n'
    decreases |s| - from
  {
    if from == |s| then None else if s[from] == '\n' then Some(from) else NewlineFrom(s, from + 1)
  }

  function FirstNewline(s: string): (r: Option<nat>)
    ensures r.Some? ==> r.value < |s| && s[r.value] == '\n' && NewlineFree(s[..r.value])
    ensures r.None? ==> NewlineFree(s)
  {
    NewlineFrom(s, 0)
  }

  function StripCr(line: string): string {
    if |line| > 0 && line[|line| - 1] == '\r' then line[..|line| - 1] else line
  }

  /** `str::lines`: terminators dropped, `\r\n` counted as one, no empty line after a final newline. */
  function Lines(s: string): seq<string>
    decreases |s|
  {
    if s == "" then []
    else
      match FirstNewline(s)
      case None => [s]
      case Some(i) => [StripCr(s[..i])] + Lines(s[i + 1..])
  }

  /** The lines with what ended each of them, in order. */
  function Ended(lines: seq<string>, ends: seq<string>): string
    requires |lines| == |ends|
  {
    if lines == [] then "" else lines[0] + ends[0] + Ended(lines[1..], ends[1..])
  }

  /**
   * Each line ends at a newline, with a carriage return before it or not, and keeps
   * neither; only the last may end with the text, and then it is not empty.
   */
  predicate IsEnding(line: string, end: string, isLast: bool) {
    && NewlineFree(line)
    && (|| end == "\r\n" || (end == "\n" && (line == "" || line[|line| - 1] != '\r'))
        || (isLast && end == "" && line != ""))
  }

  predicate AreEndings(lines: seq<string>, ends: seq<string>) {
    |lines| == |ends| && forall i :: 0 <= i < |lines| ==> IsEnding(lines[i], ends[i], i == |lines| - 1)
  }

  /** Lines and endings put back together are the text. */
  lemma {:induction false} LinesMakeText(s: string) returns (ends: seq<string>)
    ensures AreEndings(Lines(s), ends) && Ended(Lines(s), ends) == s
    decreases |s|
  {
    if s == "" { return []; }
    match FirstNewline(s)
    case None => ends := [""];
    case Some(i) =>
      var rest := LinesMakeText(s[i + 1..]);
      var end := if i > 0 && s[i - 1] == '\r' then "\r\n" else "\n";
      ends := [end] + rest;
      CutAtNewline(s, i, end);
      EndingFirst(StripCr(s[..i]), end, Lines(s[i + 1..]), rest);
  }

  lemma CutAtNewline(s: string, i: nat, end: string)
    requires i < |s| && s[i] == '\n' && NewlineFree(s[..i])
    requires end == if i > 0 && s[i - 1] == '\r' then "\r\n" else "\n"
    ensures StripCr(s[..i]) + end + s[i + 1..] == s && IsEnding(StripCr(s[..i]), end, false)
  {
    var line := StripCr(s[..i]);
    assert line + end == s[..i + 1];
    assert end == "\r\n" ==> line == s[..i - 1];
  }

  lemma EndingFirst(line: string, end: string, lines: seq<string>, ends: seq<string>)
    requires IsEnding(line, end, false) && AreEndings(lines, ends)
    ensures AreEndings([line] + lines, [end] + ends)
    ensures Ended([line] + lines, [end] + ends) == line + end + Ended(lines, ends)
  {
    var l, e := [line] + lines, [end] + ends;
    assert l[1..] == lines && e[1..] == ends;
    forall i | 0 <= i < |l| ensures IsEnding(l[i], e[i], i == |l| - 1) {
      if i > 0 { assert IsEnding(lines[i - 1], ends[i - 1], i - 1 == |lines| - 1); }
    }
  }

  lemma {:induction false} LinesHaveNoNewline(s: string, i: nat)
    requires i < |Lines(s)|
    ensures NewlineFree(Lines(s)[i])
    decreases |s|
  {
    if FirstNewline(s).Some? && i > 0 { LinesHaveNoNewline(s[FirstNewline(s).value + 1..], i - 1); }
  }

  function Concat(parts: seq<string>): string {
    if parts == [] then "" else parts[0] + Concat(parts[1..])
  }

  lemma Associative<T>(a: seq<T>, b: seq<T>, c: seq<T>)
    ensures (a + b) + c == a + (b + c)
  {
  }

  lemma NewlineFoundAt(a: string, b: string)
    requires NewlineFree(a)
    ensures FirstNewline(a + "\n" + b) == Some(|a|)
  {
    var s := a + "\n" + b;
    assert s[|a|] == '\n' && forall i :: 0 <= i < |a| ==> s[i] == a[i];
  }
}
