/**
 * The two server-sent-event loops: the client's `llm_complete`
 * (server_client.rs) and the server's `generate` (server_llm.rs). The wire
 * format is the subset of WHATWG HTML section 9.2 both loops read: events end
 * at a blank line, only `data: ` lines matter.
 */
module Sse {
  import opened Wrappers
  import opened Text

  // ------------------------------------------------------------------ framing

  predicate BreakAt(s: string, i: int) { 0 <= i < |s| - 1 && s[i] == '\n' && s[i + 1] == '\n' }

  ghost predicate HasBreak(s: string) { exists i :: BreakAt(s, i) }

  /** `find("\n\n")`. */
  function FirstBreak(s: string): (r: Option<nat>)
    ensures r.Some? ==> BreakAt(s, r.value) && forall i :: i < r.value ==> !BreakAt(s, i)
    ensures r.None? ==> !HasBreak(s)
  {
    if |s| < 2 then None
    else if BreakAt(s, 0) then Some(0)
    else
      assert forall i :: i > 0 && BreakAt(s, i) ==> BreakAt(s[1..], i - 1);
      match FirstBreak(s[1..])
      case None => None
      case Some(i) =>
        assert forall j :: 0 < j < i + 1 ==> BreakAt(s, j) == BreakAt(s[1..], j - 1);
        Some(i + 1)
  }

  /** The complete events of a whole text. */
  function Events(text: string): seq<string>
    decreases |text|
  {
    match FirstBreak(text)
    case None => []
    case Some(p) => [text[..p]] + Events(text[p + 2..])
  }

  /** What follows the last complete event. */
  function Rest(text: string): string
    decreases |text|
  {
    match FirstBreak(text)
    case None => text
    case Some(p) => Rest(text[p + 2..])
  }

  lemma BreakStays(a: string, b: string)
    requires FirstBreak(a).Some?
    ensures FirstBreak(a + b) == FirstBreak(a)
  {
    var p := FirstBreak(a).value;
    assert BreakAt(a + b, p);
    assert forall i :: i < p ==> BreakAt(a + b, i) == BreakAt(a, i);
  }

  /** The kept buffer never contains a separator. */
  lemma {:induction false} RestHasNoBreak(text: string)
    ensures !HasBreak(Rest(text))
    decreases |text|
  {
    if FirstBreak(text).Some? { RestHasNoBreak(text[FirstBreak(text).value + 2..]); }
  }

  /** Text still to come does not move the first event. */
  lemma EventsAtMore(a: string, b: string, p: nat)
    requires FirstBreak(a) == Some(p)
    ensures Events(a + b) == [a[..p]] + Events(a[p + 2..] + b) && Rest(a + b) == Rest(a[p + 2..] + b)
  {
    BreakStays(a, b);
    assert (a + b)[..p] == a[..p] && (a + b)[p + 2..] == a[p + 2..] + b;
  }

  /** Draining the buffer, then appending, then draining again loses and invents nothing. */
  lemma {:induction false} DrainEarly(a: string, b: string)
    ensures Events(a + b) == Events(a) + Events(Rest(a) + b)
    ensures Rest(a + b) == Rest(Rest(a) + b)
    decreases |a|
  {
    if FirstBreak(a).Some? {
      var p := FirstBreak(a).value;
      var tail := a[p + 2..];
      DrainEarly(tail, b);
      EventsAtMore(a, b, p);
      Associative([a[..p]], Events(tail), Events(Rest(tail) + b));
    }
  }

  /** The incremental reader: append a chunk, drain the complete events, keep the rest. */
  function Fed(buffer: string, chunks: seq<string>): (seq<string>, string)
    decreases |chunks|
  {
    if chunks == [] then ([], buffer)
    else
      var (events, last) := Fed(Rest(buffer + chunks[0]), chunks[1..]);
      (Events(buffer + chunks[0]) + events, last)
  }

  /** However a text is cut, the events and the kept buffer are those of the whole text. */
  lemma {:induction false} CuttingIsInvisible(buffer: string, chunks: seq<string>)
    requires !HasBreak(buffer)
    ensures Fed(buffer, chunks) == (Events(buffer + Concat(chunks)), Rest(buffer + Concat(chunks)))
    ensures !HasBreak(Fed(buffer, chunks).1)
    decreases |chunks|
  {
    if chunks == [] {
      assert buffer + Concat(chunks) == buffer;
    } else {
      var joined := buffer + chunks[0];
      RestHasNoBreak(joined);
      CuttingIsInvisible(Rest(joined), chunks[1..]);
      DrainEarly(joined, Concat(chunks[1..]));
      Associative(buffer, chunks[0], Concat(chunks[1..]));
    }
  }

  function Framed(events: seq<string>): string {
    if events == [] then "" else events[0] + "\n\n" + Framed(events[1..])
  }

  /** Events and rest put back together are the text. */
  lemma {:induction false} EventsReassemble(text: string)
    ensures Framed(Events(text)) + Rest(text) == text
    decreases |text|
  {
    if FirstBreak(text).Some? {
      var p := FirstBreak(text).value;
      var tail := text[p + 2..];
      EventsReassemble(tail);
    }
  }

  /** The separator is the first blank line: an event runs up to it and no further. */
  lemma {:induction false} EventsHaveNoBreak(text: string)
    ensures forall e :: e in Events(text) ==> !HasBreak(e + "\n")
    decreases |text|
  {
    if FirstBreak(text).Some? {
      var p := FirstBreak(text).value;
      EventsHaveNoBreak(text[p + 2..]);
      assert forall i :: BreakAt(text[..p] + "\n", i) ==> i < p && BreakAt(text, i);
    }
  }

  lemma FirstBreakOf(e: string, tail: string)
    requires !HasBreak(e + "\n")
    ensures FirstBreak(e + "\n\n" + tail) == Some(|e|)
  {
    var text := e + "\n\n" + tail;
    assert BreakAt(text, |e|);
    assert forall i :: i < |e| && BreakAt(text, i) ==> BreakAt(e + "\n", i);
  }

  /** Any list of separator-free events survives framing. */
  lemma {:induction false} FramingRoundTrip(events: seq<string>, tail: string)
    requires forall e :: e in events ==> !HasBreak(e + "\n")
    requires !HasBreak(tail)
    ensures Events(Framed(events) + tail) == events && Rest(Framed(events) + tail) == tail
  {
    if events == [] {
      assert Framed(events) + tail == tail;
    } else {
      var e, later := events[0], Framed(events[1..]) + tail;
      FramingRoundTrip(events[1..], tail);
      assert Framed(events) + tail == e + "\n\n" + later;
      FirstBreakOf(e, later);
      assert (e + "\n\n" + later)[..|e|] == e && (e + "\n\n" + later)[|e| + 2..] == later;
    }
  }

  // ---------------------------------------------------------------- consuming

  function LinesOf(events: seq<string>): seq<string> {
    if events == [] then [] else Lines(events[0]) + LinesOf(events[1..])
  }

  /** Hand lines to a consumer until it stops. */
  function Fold<S>(step: (S, string) -> S, stopped: S -> bool, s: S, lines: seq<string>): S {
    if stopped(s) || lines == [] then s else Fold(step, stopped, step(s, lines[0]), lines[1..])
  }

  /** The consumer's state after a whole text. */
  function Consumed<S>(step: (S, string) -> S, stopped: S -> bool, s: S, text: string): S {
    Fold(step, stopped, s, LinesOf(Events(text)))
  }

  lemma {:induction false} FoldAppend<S>(step: (S, string) -> S, stopped: S -> bool, s: S, a: seq<string>,
                                         b: seq<string>)
    ensures Fold(step, stopped, s, a + b) == Fold(step, stopped, Fold(step, stopped, s, a), b)
  {
    if a == [] {
      assert a + b == b;
    } else if !stopped(s) {
      assert (a + b)[1..] == a[1..] + b;
      FoldAppend(step, stopped, step(s, a[0]), a[1..], b);
    }
  }

  /** Taking one event off the buffer while `later` is still to arrive. */
  lemma ConsumeOne<S>(step: (S, string) -> S, stopped: S -> bool, s: S, buffer: string, later: string)
    requires FirstBreak(buffer).Some?
    ensures Consumed(step, stopped, s, buffer + later)
         == Consumed(step, stopped, Fold(step, stopped, s, Lines(buffer[..FirstBreak(buffer).value])),
                     buffer[FirstBreak(buffer).value + 2..] + later)
  {
    var p := FirstBreak(buffer).value;
    EventsAtMore(buffer, later, p);
    var rest := Events(buffer[p + 2..] + later);
    assert ([buffer[..p]] + rest)[1..] == rest;
    FoldAppend(step, stopped, s, Lines(buffer[..p]), LinesOf(rest));
  }

  lemma {:induction false} LinesOfAppend(a: seq<string>, b: seq<string>)
    ensures LinesOf(a + b) == LinesOf(a) + LinesOf(b)
  {
    if a == [] {
      assert a + b == b;
    } else {
      assert (a + b)[1..] == a[1..] + b;
      LinesOfAppend(a[1..], b);
    }
  }

  /** Once a consumer has stopped (done, error, receiver gone), later text changes nothing. */
  lemma LaterTextIgnored<S>(step: (S, string) -> S, stopped: S -> bool, s: S, text: string, later: string)
    requires stopped(Consumed(step, stopped, s, text))
    ensures Consumed(step, stopped, s, text + later) == Consumed(step, stopped, s, text)
  {
    DrainEarly(text, later);
    LinesOfAppend(Events(text), Events(Rest(text) + later));
    FoldAppend(step, stopped, s, LinesOf(Events(text)), LinesOf(Events(Rest(text) + later)));
  }

  /** `strip_prefix("data: ")`. */
  function Data(line: string): Option<string> {
    if |line| >= 6 && line[..6] == "data: " then Some(line[6..]) else None
  }

  // ------------------------------------------------------------- llm_complete

  /** A payload as the client reads it; `NotJson` is skipped. */
  datatype Json = NotJson | Object(kind: Option<string>, content: Option<string>, message: Option<string>)

  datatype Client = Reading(output: string) | Finished(output: string) | Broken(message: string)

  function ClientStep(parse: string -> Json): (Client, string) -> Client {
    (c: Client, line: string) =>
      if !c.Reading? || Data(line).None? || Data(line).value == "" then c
      else
        match parse(Data(line).value)
        case NotJson => c
        case Object(kind, content, message) =>
          if kind == Some("token") then if content.Some? then Reading(c.output + content.value) else c
          else if kind == Some("done") then Finished(c.output)
          else if kind == Some("error") then Broken(if message.Some? then message.value else "unknown error")
          else c
  }

  function ClientStopped(): Client -> bool { (c: Client) => !c.Reading? }

  function ClientAfter(parse: string -> Json, text: string): Client {
    Consumed(ClientStep(parse), ClientStopped(), Reading(""), text)
  }

  /** What the caller of `llm_complete` gets, `failure` being a transport error after the last chunk. */
  function ClientOutcome(c: Client, failure: Option<string>): Result<string, string> {
    match c
    case Finished(output) => Success(output)
    case Broken(message) => Failure("llm/complete stream error: " + message)
    case Reading(output) =>
      if failure.Some? then Failure("reading /llm/complete SSE stream: " + failure.value) else Success(output)
  }

  method ReadLines(parse: string -> Json, lines: seq<string>, start: string) returns (c: Client)
    ensures c == Fold(ClientStep(parse), ClientStopped(), Reading(start), lines)
  {
    var output := start;
    ghost var target := Fold(ClientStep(parse), ClientStopped(), Reading(start), lines);
    for i := 0 to |lines|
      invariant Fold(ClientStep(parse), ClientStopped(), Reading(output), lines[i..]) == target
    {
      var data := Data(lines[i]);
      if data.None? { continue; }
      if data.value == "" { continue; }
      var val := parse(data.value);
      if val.NotJson? { continue; }
      if val.kind == Some("token") {
        if val.content.Some? { output := output + val.content.value; }
      } else if val.kind == Some("done") {
        return Finished(output);
      } else if val.kind == Some("error") {
        return Broken(if val.message.Some? then val.message.value else "unknown error");
      }
    }
    c := Reading(output);
  }

  /** The result depends on the concatenated text alone, not on where the chunks were cut. */
  method LlmComplete(parse: string -> Json, chunks: seq<string>, failure: Option<string>)
    returns (r: Result<string, string>)
    ensures r == ClientOutcome(ClientAfter(parse, Concat(chunks)), failure)
  {
    var buffer, output := "", "";
    ghost var step, stopped := ClientStep(parse), ClientStopped();
    ghost var target := ClientAfter(parse, Concat(chunks));
    assert "" + Concat(chunks) == Concat(chunks) && chunks[0..] == chunks;
    for k := 0 to |chunks|
      invariant !HasBreak(buffer)
      invariant Consumed(step, stopped, Reading(output), buffer + Concat(chunks[k..])) == target
    {
      ghost var later := Concat(chunks[k + 1..]);
      assert buffer + Concat(chunks[k..]) == (buffer + chunks[k]) + later by {
        assert chunks[k..][1..] == chunks[k + 1..];
      }
      buffer := buffer + chunks[k];
      var pos := FirstBreak(buffer);
      while pos.Some?
        invariant pos == FirstBreak(buffer)
        invariant Consumed(step, stopped, Reading(output), buffer + later) == target
        decreases |buffer|
      {
        ConsumeOne(step, stopped, Reading(output), buffer, later);
        var event := buffer[..pos.value];
        buffer := buffer[pos.value + 2..];
        var c := ReadLines(parse, Lines(event), output);
        if !c.Reading? { return ClientOutcome(c, failure); }
        output := c.output;
        pos := FirstBreak(buffer);
      }
    }
    assert buffer + Concat(chunks[|chunks|..]) == buffer;
    r := ClientOutcome(Reading(output), failure);
  }

  // ----------------------------------------------------------------- generate

  datatype Delta = Delta(content: Option<string>, reasoning: Option<string>)

  datatype Ending = Streaming | DoneMarker | ReceiverGone

  datatype Server = Server(sent: seq<string>, sawContent: bool, sawReasoning: bool, ending: Ending)

  /** One choice of one chunk; the receiver takes the first `accepts` tokens and then goes away. */
  function ChoiceStep(accepts: nat, s: Server, d: Delta): Server {
    var s1 := if d.reasoning.Some? && d.reasoning.value != "" then s.(sawReasoning := true) else s;
    if d.content.None? || d.content.value == "" then s1
    else if |s1.sent| >= accepts then s1.(sawContent := true, ending := ReceiverGone)
    else s1.(sawContent := true, sent := s1.sent + [d.content.value])
  }

  function ChoicesStep(accepts: nat, s: Server, choices: seq<Delta>): Server
    decreases |choices|
  {
    if choices == [] || !s.ending.Streaming? then s
    else ChoicesStep(accepts, ChoiceStep(accepts, s, choices[0]), choices[1..])
  }

  function ServerStep(parse: string -> Option<seq<Delta>>, accepts: nat): (Server, string) -> Server {
    (s: Server, line: string) =>
      if Data(line).None? then s
      else if Data(line).value == "[DONE]" then s.(ending := DoneMarker)
      else if Data(line).value == "" || parse(Data(line).value).None? then s
      else ChoicesStep(accepts, s, parse(Data(line).value).value)
  }

  function ServerStopped(): Server -> bool { (s: Server) => !s.ending.Streaming? }

  const FRESH := Server([], false, false, Streaming)

  function ServerAfter(parse: string -> Option<seq<Delta>>, accepts: nat, text: string): Server {
    Consumed(ServerStep(parse, accepts), ServerStopped(), FRESH, text)
  }

  /** Only reasoning was streamed: the case `generate` warns about. */
  predicate Warns(s: Server) { !s.ending.ReceiverGone? && s.sawReasoning && !s.sawContent }

  method SendChoices(accepts: nat, start: Server, choices: seq<Delta>) returns (s: Server)
    requires start.ending.Streaming?
    ensures s == ChoicesStep(accepts, start, choices)
  {
    s := start;
    ghost var target := ChoicesStep(accepts, start, choices);
    for i := 0 to |choices|
      invariant s.ending.Streaming? && ChoicesStep(accepts, s, choices[i..]) == target
    {
      assert choices[i..][1..] == choices[i + 1..];
      var Delta(content, reasoning) := choices[i];
      if reasoning.Some? && reasoning.value != "" { s := s.(sawReasoning := true); }
      if content.Some? && content.value != "" {
        s := s.(sawContent := true);
        if |s.sent| >= accepts { return s.(ending := ReceiverGone); }
        s := s.(sent := s.sent + [content.value]);
      }
    }
  }

  method SendLines(parse: string -> Option<seq<Delta>>, accepts: nat, lines: seq<string>, start: Server)
    returns (s: Server)
    requires start.ending.Streaming?
    ensures s == Fold(ServerStep(parse, accepts), ServerStopped(), start, lines)
  {
    s := start;
    ghost var target := Fold(ServerStep(parse, accepts), ServerStopped(), start, lines);
    for i := 0 to |lines|
      invariant s.ending.Streaming?
      invariant Fold(ServerStep(parse, accepts), ServerStopped(), s, lines[i..]) == target
    {
      var data := Data(lines[i]);
      if data.None? { continue; }
      if data.value == "[DONE]" { return s.(ending := DoneMarker); }
      if data.value == "" { continue; }
      var chunk := parse(data.value);
      if chunk.Some? {
        s := SendChoices(accepts, s, chunk.value);
        if !s.ending.Streaming? { return; }
      }
    }
  }

  /**
   * Tokens forwarded and the ending depend on the concatenated text alone; a transport
   * error only shows if still streaming.
   */
  method Generate(parse: string -> Option<seq<Delta>>, accepts: nat, chunks: seq<string>, failure: Option<string>)
    returns (s: Server, warned: bool, r: Result<(), string>)
    ensures s == ServerAfter(parse, accepts, Concat(chunks))
    ensures r.Failure? <==> s.ending.Streaming? && failure.Some?
    ensures r.Failure? ==> r.error == failure.value
    ensures warned == (r.Success? && s.ending != ReceiverGone && s.sawReasoning && !s.sawContent)
  {
    var buffer := "";
    s := FRESH;
    ghost var step, stopped := ServerStep(parse, accepts), ServerStopped();
    ghost var target := ServerAfter(parse, accepts, Concat(chunks));
    assert "" + Concat(chunks) == Concat(chunks) && chunks[0..] == chunks;
    for k := 0 to |chunks|
      invariant s.ending.Streaming? && !HasBreak(buffer)
      invariant Consumed(step, stopped, s, buffer + Concat(chunks[k..])) == target
    {
      ghost var later := Concat(chunks[k + 1..]);
      assert buffer + Concat(chunks[k..]) == (buffer + chunks[k]) + later by {
        assert chunks[k..][1..] == chunks[k + 1..];
      }
      buffer := buffer + chunks[k];
      var pos := FirstBreak(buffer);
      while pos.Some?
        invariant pos == FirstBreak(buffer) && s.ending.Streaming?
        invariant Consumed(step, stopped, s, buffer + later) == target
        decreases |buffer|
      {
        ConsumeOne(step, stopped, s, buffer, later);
        var event := buffer[..pos.value];
        buffer := buffer[pos.value + 2..];
        s := SendLines(parse, accepts, Lines(event), s);
        if !s.ending.Streaming? { return s, Warns(s), Success(()); }
        pos := FirstBreak(buffer);
      }
    }
    assert buffer + Concat(chunks[|chunks|..]) == buffer;
    if failure.Some? { return s, false, Failure(failure.value); }
    return s, Warns(s), Success(());
  }

  // ---------------------------------------------------------- whole responses

  /** The frames a server writes for a list of payloads. */
  function Payloads(payloads: seq<string>): seq<string> {
    if payloads == [] then [] else ["data: " + payloads[0]] + Payloads(payloads[1..])
  }

  lemma {:induction false} PayloadLines(payloads: seq<string>)
    requires forall p :: p in payloads ==> NewlineFree(p)
    ensures LinesOf(Payloads(payloads)) == Payloads(payloads)
    ensures forall e :: e in Payloads(payloads) ==> !HasBreak(e + "\n")
  {
    if payloads != [] {
      PayloadLines(payloads[1..]);
      var prefix := "data: ";
      assert NewlineFree(prefix) && NewlineFree(payloads[0]);
      assert Payloads(payloads)[1..] == Payloads(payloads[1..]);
    }
  }

  /** Payloads framed by a server reach a consumer whole, in order and once each, however they were cut. */
  lemma FramedPayloadsArrive<S>(step: (S, string) -> S, stopped: S -> bool, s: S, payloads: seq<string>)
    requires forall p :: p in payloads ==> NewlineFree(p)
    ensures Consumed(step, stopped, s, Framed(Payloads(payloads))) == Fold(step, stopped, s, Payloads(payloads))
  {
    PayloadLines(payloads);
    FramingRoundTrip(Payloads(payloads), "");
    assert Framed(Payloads(payloads)) + "" == Framed(Payloads(payloads));
  }

  lemma DataOfPayload(p: string)
    ensures Data("data: " + p) == Some(p)
  {
    assert ("data: " + p)[..6] == "data: " && ("data: " + p)[6..] == p;
  }

  lemma {:induction false} PayloadsAppend(payloads: seq<string>, last: string)
    ensures Payloads(payloads + [last]) == Payloads(payloads) + ["data: " + last]
  {
    if payloads != [] {
      assert (payloads + [last])[1..] == payloads[1..] + [last];
      PayloadsAppend(payloads[1..], last);
    }
  }

  // ------------------------------------------------- what the client is told

  predicate IsDone(val: Json) { val.Object? && val.kind == Some("done") }

  predicate IsError(val: Json) { val.Object? && val.kind == Some("error") }

  /** A token event adds its content; what does not parse, has no content or is of another kind adds nothing. */
  predicate Adds(parse: string -> Json, payload: string, piece: string) {
    var val := parse(payload);
    piece == if payload != "" && val.Object? && val.kind == Some("token") && val.content.Some? then val.content.value
             else ""
  }

  /** Payloads that end nothing, with what each of them adds. */
  predicate AddUp(parse: string -> Json, payloads: seq<string>, pieces: seq<string>) {
    && |pieces| == |payloads|
    && forall i :: 0 <= i < |payloads| ==>
         && NewlineFree(payloads[i]) && Adds(parse, payloads[i], pieces[i])
         && !IsDone(parse(payloads[i])) && !IsError(parse(payloads[i]))
  }

  lemma {:induction false} TokensFold(parse: string -> Json, payloads: seq<string>, pieces: seq<string>, output: string)
    requires AddUp(parse, payloads, pieces)
    ensures Fold(ClientStep(parse), ClientStopped(), Reading(output), Payloads(payloads))
         == Reading(output + Concat(pieces))
  {
    if payloads == [] {
      assert output + Concat(pieces) == output;
    } else {
      DataOfPayload(payloads[0]);
      assert Adds(parse, payloads[0], pieces[0]);
      assert output + pieces[0] == if pieces[0] == "" then output else output + pieces[0];
      assert ClientStep(parse)(Reading(output), "data: " + payloads[0]) == Reading(output + pieces[0]);
      TokensFold(parse, payloads[1..], pieces[1..], output + pieces[0]);
      Associative(output, pieces[0], Concat(pieces[1..]));
    }
  }

  /** Tokens and no end to them: the contents in order, unless the transport fails. */
  lemma TokensAreOutput(parse: string -> Json, payloads: seq<string>, pieces: seq<string>, failure: Option<string>)
    requires AddUp(parse, payloads, pieces)
    ensures ClientOutcome(ClientAfter(parse, Framed(Payloads(payloads))), failure)
         == if failure.None? then Success(Concat(pieces))
            else Failure("reading /llm/complete SSE stream: " + failure.value)
  {
    FramedPayloadsArrive(ClientStep(parse), ClientStopped(), Reading(""), payloads);
    TokensFold(parse, payloads, pieces, "");
    assert "" + Concat(pieces) == Concat(pieces);
  }

  lemma EndAfterTokens(parse: string -> Json, payloads: seq<string>, pieces: seq<string>, last: string, later: string)
    requires AddUp(parse, payloads, pieces) && NewlineFree(last)
    requires var c := ClientStep(parse)(Reading(Concat(pieces)), "data: " + last); !c.Reading?
    ensures ClientAfter(parse, Framed(Payloads(payloads + [last])) + later)
         == ClientStep(parse)(Reading(Concat(pieces)), "data: " + last)
  {
    var step, stopped, text := ClientStep(parse), ClientStopped(), Framed(Payloads(payloads + [last]));
    FramedPayloadsArrive(step, stopped, Reading(""), payloads + [last]);
    PayloadsAppend(payloads, last);
    FoldAppend(step, stopped, Reading(""), Payloads(payloads), ["data: " + last]);
    TokensFold(parse, payloads, pieces, "");
    assert "" + Concat(pieces) == Concat(pieces);
    OneLine(step, stopped, Reading(Concat(pieces)), "data: " + last);
    LaterTextIgnored(step, stopped, Reading(""), text, later);
  }

  lemma OneLine<S>(step: (S, string) -> S, stopped: S -> bool, s: S, line: string)
    requires !stopped(s)
    ensures Fold(step, stopped, s, [line]) == step(s, line)
  {
    assert [line][1..] == [];
  }

  /** The first done event ends the answer: the contents so far, whatever follows and however the transport ends. */
  lemma DoneEndsOutput(parse: string -> Json, payloads: seq<string>, pieces: seq<string>, done: string, later: string,
                       failure: Option<string>)
    requires AddUp(parse, payloads, pieces) && NewlineFree(done) && done != "" && IsDone(parse(done))
    ensures ClientOutcome(ClientAfter(parse, Framed(Payloads(payloads + [done])) + later), failure)
         == Success(Concat(pieces))
  {
    DataOfPayload(done);
    EndAfterTokens(parse, payloads, pieces, done, later);
  }

  /** The first error event fails the call with its message, whatever came before or follows. */
  lemma ErrorFailsCall(parse: string -> Json, payloads: seq<string>, pieces: seq<string>, error: string, later: string,
                       failure: Option<string>)
    requires AddUp(parse, payloads, pieces) && NewlineFree(error) && error != "" && IsError(parse(error))
    ensures var message := parse(error).message;
            ClientOutcome(ClientAfter(parse, Framed(Payloads(payloads + [error])) + later), failure)
            == Failure("llm/complete stream error: " + if message.Some? then message.value else "unknown error")
  {
    DataOfPayload(error);
    EndAfterTokens(parse, payloads, pieces, error, later);
  }

  // ------------------------------------------------ what the server forwards

  /** The contents among some choices that are not empty, in order. */
  function Said(choices: seq<Delta>): seq<string> {
    if choices == [] then []
    else
      (match choices[0].content case Some(text) => (if text == "" then [] else [text]) case None => [])
      + Said(choices[1..])
  }

  predicate Reasons(choices: seq<Delta>) {
    exists i :: 0 <= i < |choices| && choices[i].reasoning.Some? && choices[i].reasoning.value != ""
  }

  /** The choices of payloads of which none is the end marker; what does not parse carries none. */
  predicate Carry(parse: string -> Option<seq<Delta>>, payloads: seq<string>, choices: seq<seq<Delta>>) {
    && |choices| == |payloads|
    && forall i :: 0 <= i < |payloads| ==>
         && NewlineFree(payloads[i]) && payloads[i] != "[DONE]"
         && choices[i] == if payloads[i] == "" || parse(payloads[i]).None? then [] else parse(payloads[i]).value
  }

  function Flat<T>(lists: seq<seq<T>>): seq<T> { if lists == [] then [] else lists[0] + Flat(lists[1..]) }

  /** `s` after some more choices, the receiver having room for all they say. */
  ghost predicate Forwarded(accepts: nat, before: Server, choices: seq<Delta>, s: Server) {
    if |before.sent| + |Said(choices)| <= accepts
    then s == Server(before.sent + Said(choices), before.sawContent || Said(choices) != [],
                     before.sawReasoning || Reasons(choices), Streaming)
    else s.ending == ReceiverGone && s.sent == (before.sent + Said(choices))[..accepts]
  }

  lemma ChoiceForwards(accepts: nat, before: Server, d: Delta)
    requires before.ending.Streaming? && |before.sent| <= accepts
    ensures Forwarded(accepts, before, [d], ChoiceStep(accepts, before, d))
  {
    assert [d][0] == d && [d][1..] == [];
    assert Said([d]) == match d.content case Some(text) => (if text == "" then [] else [text]) case None => [];
    assert Reasons([d]) <==> d.reasoning.Some? && d.reasoning.value != "";
    assert before.sent + [] == before.sent && (before.sent + Said([d]))[..|before.sent|] == before.sent;
  }

  lemma ForwardedOn(accepts: nat, before: Server, a: seq<Delta>, mid: Server, b: seq<Delta>, s: Server)
    requires Forwarded(accepts, before, a, mid) && |before.sent| <= accepts
    requires if mid.ending.Streaming? then Forwarded(accepts, mid, b, s) else s == mid
    ensures Forwarded(accepts, before, a + b, s)
  {
    SaidAppend(a, b);
    ReasonsAppend(a, b);
    Associative(before.sent, Said(a), Said(b));
    var all := before.sent + Said(a);
    assert |all| >= accepts ==> (all + Said(b))[..accepts] == all[..accepts];
  }

  lemma {:induction false} ChoicesForward(accepts: nat, before: Server, choices: seq<Delta>)
    requires before.ending.Streaming? && |before.sent| <= accepts
    ensures Forwarded(accepts, before, choices, ChoicesStep(accepts, before, choices))
    decreases |choices|
  {
    if choices == [] {
      assert before.sent + Said(choices) == before.sent;
    } else {
      var next, rest := ChoiceStep(accepts, before, choices[0]), choices[1..];
      ChoiceForwards(accepts, before, choices[0]);
      if next.ending.Streaming? {
        ChoicesForward(accepts, next, rest);
      } else {
        assert ChoicesStep(accepts, next, rest) == next;
      }
      ForwardedOn(accepts, before, [choices[0]], next, rest, ChoicesStep(accepts, before, choices));
      assert [choices[0]] + rest == choices;
    }
  }

  lemma {:induction false} SaidAppend(a: seq<Delta>, b: seq<Delta>)
    ensures Said(a + b) == Said(a) + Said(b)
  {
    if a == [] {
      assert a + b == b;
    } else {
      assert (a + b)[0] == a[0] && (a + b)[1..] == a[1..] + b;
      SaidAppend(a[1..], b);
    }
  }

  lemma ReasonsAppend(a: seq<Delta>, b: seq<Delta>)
    ensures Reasons(a + b) <==> Reasons(a) || Reasons(b)
  {
    var all := a + b;
    assert forall i :: 0 <= i < |a| ==> all[i] == a[i];
    assert forall i :: 0 <= i < |b| ==> all[|a| + i] == b[i];
  }

  lemma {:induction false} PayloadsForward(parse: string -> Option<seq<Delta>>, accepts: nat, before: Server,
                                           payloads: seq<string>, choices: seq<seq<Delta>>)
    requires before.ending.Streaming? && |before.sent| <= accepts && Carry(parse, payloads, choices)
    ensures Forwarded(accepts, before, Flat(choices),
                      Fold(ServerStep(parse, accepts), ServerStopped(), before, Payloads(payloads)))
    decreases |payloads|
  {
    ChoicesForward(accepts, before, []);
    if payloads != [] {
      var step, stopped, rest := ServerStep(parse, accepts), ServerStopped(), Flat(choices[1..]);
      DataOfPayload(payloads[0]);
      assert ChoicesStep(accepts, before, []) == before;
      var next := ChoicesStep(accepts, before, choices[0]);
      assert step(before, "data: " + payloads[0]) == next;
      ChoicesForward(accepts, before, choices[0]);
      if next.ending.Streaming? {
        PayloadsForward(parse, accepts, next, payloads[1..], choices[1..]);
      } else {
        GoneStays(step, stopped, next, Payloads(payloads[1..]));
      }
      ForwardedOn(accepts, before, choices[0], next, rest, Fold(step, stopped, before, Payloads(payloads)));
    }
  }

  lemma GoneStays<S>(step: (S, string) -> S, stopped: S -> bool, s: S, lines: seq<string>)
    requires stopped(s)
    ensures Fold(step, stopped, s, lines) == s
  {
  }

  /**
   * The server forwards every non-empty content in order, as many as the receiver
   * takes, and remembers exactly whether it saw content and reasoning.
   */
  lemma ContentsAreForwarded(parse: string -> Option<seq<Delta>>, accepts: nat, payloads: seq<string>,
                             choices: seq<seq<Delta>>)
    requires Carry(parse, payloads, choices)
    ensures Forwarded(accepts, FRESH, Flat(choices), ServerAfter(parse, accepts, Framed(Payloads(payloads))))
  {
    FramedPayloadsArrive(ServerStep(parse, accepts), ServerStopped(), FRESH, payloads);
    PayloadsForward(parse, accepts, FRESH, payloads, choices);
  }

  /** The end marker stops the stream where it stands: nothing after it is forwarded. */
  lemma MarkerEndsForwarding(parse: string -> Option<seq<Delta>>, accepts: nat, payloads: seq<string>,
                             choices: seq<seq<Delta>>, later: string)
    requires Carry(parse, payloads, choices) && |Said(Flat(choices))| <= accepts
    ensures var s := ServerAfter(parse, accepts, Framed(Payloads(payloads + ["[DONE]"])) + later);
            s == Server(Said(Flat(choices)), Said(Flat(choices)) != [], Reasons(Flat(choices)), DoneMarker)
  {
    var step, stopped, marker := ServerStep(parse, accepts), ServerStopped(), "[DONE]";
    var text := Framed(Payloads(payloads + [marker]));
    assert NewlineFree(marker);
    FramedPayloadsArrive(step, stopped, FRESH, payloads + [marker]);
    PayloadsAppend(payloads, marker);
    FoldAppend(step, stopped, FRESH, Payloads(payloads), ["data: " + marker]);
    PayloadsForward(parse, accepts, FRESH, payloads, choices);
    var before := Fold(step, stopped, FRESH, Payloads(payloads));
    assert [] + Said(Flat(choices)) == Said(Flat(choices));
    DataOfPayload(marker);
    OneLine(step, stopped, before, "data: " + marker);
    LaterTextIgnored(step, stopped, FRESH, text, later);
  }
}
