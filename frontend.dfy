/** The React front end (frontend/src/App.jsx): `analyzeTextStream` reads the NDJSON body of
    `/analyze` chunk by chunk, frames it into lines and dispatches each record; the `App`
    component keeps the dashboard state (results, the toxic-only filter, the expanded card,
    the resizable sidebar) and highlights the lines of the contract that match a result. */
module Frontend {
  import opened Wrappers
  import opened Text
  import opened Scoring
  import opened Postprocess
  import opened Stream

  // ----- JavaScript strings -----

  /** The characters `String.prototype.trim` removes: ECMAScript's WhiteSpace and
      LineTerminator. The set differs from Python's `str.isspace()`. */
  predicate IsJsSpace(c: char) {
    c == '\t' || c == '\U{B}' || c == '\U{C}' || c == ' ' || c == '\U{A0}' || c == '\U{FEFF}'
    || c == '\U{1680}' || ('\U{2000}' <= c <= '\U{200A}') || c == '\U{202F}' || c == '\U{205F}'
    || c == '\U{3000}' || c == '\n' || c == '\r' || c == '\U{2028}' || c == '\U{2029}'
  }

  function JsTrimStart(s: string): (r: string)
    ensures |r| <= |s|
    ensures r == [] || !IsJsSpace(r[0])
  {
    if s == [] || !IsJsSpace(s[0]) then s else JsTrimStart(s[1..])
  }

  function JsTrimEnd(s: string): (r: string)
    ensures |r| <= |s| && r == s[..|r|]
    ensures r == [] || !IsJsSpace(r[|r| - 1])
  {
    if s == [] || !IsJsSpace(s[|s| - 1]) then s else JsTrimEnd(s[..|s| - 1])
  }

  /** `s.trim()`. */
  function JsTrim(s: string): (r: string)
    ensures |r| <= |s|
    ensures r == [] || (!IsJsSpace(r[0]) && !IsJsSpace(r[|r| - 1]))
  {
    JsTrimEnd(JsTrimStart(s))
  }

  /** `!s.trim()`: the trimmed text is the empty, falsy string. */
  predicate IsBlank(s: string) {
    JsTrim(s) == ""
  }

  lemma {:induction false} JsTrimStartEmpty(s: string)
    ensures JsTrimStart(s) == [] <==> forall k :: 0 <= k < |s| ==> IsJsSpace(s[k])
  {
    if s != [] && IsJsSpace(s[0]) {
      JsTrimStartEmpty(s[1..]);
      assert forall k :: 1 <= k < |s| ==> s[k] == s[1..][k - 1];
    }
  }

  lemma {:induction false} JsTrimEndKeepsHead(s: string)
    requires s != [] && !IsJsSpace(s[0])
    ensures JsTrimEnd(s) != []
  {
    if IsJsSpace(s[|s| - 1]) {
      JsTrimEndKeepsHead(s[..|s| - 1]);
    }
  }

  /** A line is blank exactly when every character of it is JavaScript whitespace. */
  lemma BlankIffAllJsSpace(s: string)
    ensures IsBlank(s) <==> forall k :: 0 <= k < |s| ==> IsJsSpace(s[k])
  {
    JsTrimStartEmpty(s);
    var t := JsTrimStart(s);
    if t != [] {
      JsTrimEndKeepsHead(t);
    }
  }

  // ----- one record -----

  /** The fields the loop reads from `JSON.parse(line)`; a missing field is `None`. */
  datatype Record = Record(
    status: Option<string>, current: Option<int>, total: Option<int>,
    message: Option<string>, results: Option<seq<Processed>>)

  /** The arguments of one `onProgress(current, total, message)` call. */
  datatype ProgressCall = ProgressCall(current: Option<int>, total: Option<int>, message: Option<string>)

  /** What the loop does with one line. */
  datatype Action = Skip | Report(call: ProgressCall) | Finish(results: Option<seq<Processed>>)

  /** The body of `for (const line of lines)`. `decode` is `JSON.parse` followed by the field
      reads; it is `None` when either throws. Both that throw and the one an `error` record
      raises are caught by the inner `catch`, which only logs, so neither ends the loop. */
  function Handle(line: string, decode: string -> Option<Record>): (a: Action)
    ensures IsBlank(line) ==> a == Skip
    ensures a.Finish? ==> decode(line).Some? && decode(line).value.status == Some("complete")
    ensures a.Report? ==> decode(line).Some? && decode(line).value.status == Some("progress")
  {
    if IsBlank(line) then Skip
    else match decode(line)
      case None => Skip
      case Some(data) =>
        if data.status == Some("progress") then Report(ProgressCall(data.current, data.total, data.message))
        else if data.status == Some("complete") then Finish(data.results)
        else Skip
  }

  /** A malformed line and an `error` record are only logged: the loop goes on. */
  lemma ErrorRecordSwallowed(line: string, decode: string -> Option<Record>)
    requires decode(line) == None || decode(line).value.status == Some("error")
    ensures Handle(line, decode) == Skip
  {
  }

  /** A non-blank `progress` record reports its `current`, `total` and `message`; a non-blank
      `complete` record hands back its `results`. */
  lemma RecordDispatched(line: string, decode: string -> Option<Record>)
    requires !IsBlank(line) && decode(line).Some?
    ensures var data := decode(line).value;
            (data.status == Some("progress") ==>
               Handle(line, decode) == Report(ProgressCall(data.current, data.total, data.message)))
            && (data.status == Some("complete") ==> Handle(line, decode) == Finish(data.results))
  {
  }

  // ----- a sequence of lines -----

  /** Whether a `complete` record has ended the reading, and with which results. */
  datatype Ending = Open | Closed(results: Option<seq<Processed>>)

  datatype Consumed = Consumed(calls: seq<ProgressCall>, ending: Ending)

  /** The action of every line. */
  function Actions(lines: seq<string>, decode: string -> Option<Record>): (r: seq<Action>)
    ensures |r| == |lines| && forall k :: 0 <= k < |r| ==> r[k] == Handle(lines[k], decode)
  {
    seq(|lines|, k requires 0 <= k < |lines| => Handle(lines[k], decode))
  }

  /** Actions taken in order until the first `Finish`: the progress calls made on the way and
      how the reading ended. */
  function Settle(actions: seq<Action>): Consumed {
    if actions == [] then Consumed([], Open)
    else match actions[0]
      case Skip => Settle(actions[1..])
      case Report(call) =>
        var rest := Settle(actions[1..]);
        Consumed([call] + rest.calls, rest.ending)
      case Finish(results) => Consumed([], Closed(results))
  }

  /** The lines handled in order until the first `complete` record. */
  function Consume(lines: seq<string>, decode: string -> Option<Record>): Consumed {
    Settle(Actions(lines, decode))
  }

  lemma {:induction false} SettleAppend(a: seq<Action>, b: seq<Action>)
    ensures var sa := Settle(a);
            var sb := Settle(b);
            Settle(a + b) == if sa.ending.Closed? then sa else Consumed(sa.calls + sb.calls, sb.ending)
  {
    if a != [] {
      assert (a + b)[1..] == a[1..] + b;
      assert (a + b)[0] == a[0];
      SettleAppend(a[1..], b);
      var sr := Settle(a[1..]);
      var sb := Settle(b);
      match a[0] {
        case Skip =>
        case Report(call) =>
          assert [call] + (sr.calls + sb.calls) == ([call] + sr.calls) + sb.calls;
        case Finish(_) =>
      }
    } else {
      assert a + b == b;
    }
  }

  /** Reading `a` then `b` is reading `a`, and reading `b` only if `a` left it open. */
  lemma ConsumeAppend(a: seq<string>, b: seq<string>, decode: string -> Option<Record>)
    ensures var ca := Consume(a, decode);
            var cb := Consume(b, decode);
            Consume(a + b, decode) == if ca.ending.Closed? then ca else Consumed(ca.calls + cb.calls, cb.ending)
  {
    assert Actions(a + b, decode) == Actions(a, decode) + Actions(b, decode);
    SettleAppend(Actions(a, decode), Actions(b, decode));
  }

  /** Reading one line and then the rest. */
  lemma ConsumeCons(lines: seq<string>, decode: string -> Option<Record>)
    requires lines != []
    ensures var rest := Consume(lines[1..], decode);
            Consume(lines, decode) == match Handle(lines[0], decode)
              case Skip => rest
              case Report(call) => Consumed([call] + rest.calls, rest.ending)
              case Finish(results) => Consumed([], Closed(results))
  {
    assert Actions(lines, decode)[1..] == Actions(lines[1..], decode);
  }

  /** Once a `complete` record has been read, nothing after it is processed. */
  lemma NothingAfterComplete(a: seq<string>, b: seq<string>, decode: string -> Option<Record>)
    requires Consume(a, decode).ending.Closed?
    ensures Consume(a + b, decode) == Consume(a, decode)
  {
    ConsumeAppend(a, b, decode);
  }

  /** The progress calls among the actions, with no stopping. */
  function Reports(actions: seq<Action>): (r: seq<ProgressCall>)
    ensures |r| <= |actions|
  {
    if actions == [] then []
    else if actions[0].Report? then [actions[0].call] + Reports(actions[1..])
    else Reports(actions[1..])
  }

  lemma {:induction false} SettleWithoutFinish(actions: seq<Action>)
    requires forall k :: 0 <= k < |actions| ==> !actions[k].Finish?
    ensures Settle(actions) == Consumed(Reports(actions), Open)
  {
    if actions != [] {
      assert forall k :: 0 <= k < |actions| - 1 ==> actions[1..][k] == actions[k + 1];
      SettleWithoutFinish(actions[1..]);
    }
  }

  lemma {:induction false} SettleFirstFinish(actions: seq<Action>, i: nat)
    requires i < |actions| && actions[i].Finish?
    requires forall k :: 0 <= k < i ==> !actions[k].Finish?
    ensures Settle(actions) == Consumed(Reports(actions[..i]), Closed(actions[i].results))
  {
    if i == 0 {
      assert actions[..0] == [];
    } else {
      assert forall k :: 0 <= k < |actions| - 1 ==> actions[1..][k] == actions[k + 1];
      SettleFirstFinish(actions[1..], i - 1);
      assert actions[..i][1..] == actions[1..][..i - 1];
      assert actions[..i][0] == actions[0];
    }
  }

  /** Without a `complete` record, every progress record is reported and the reading stays
      open. */
  lemma ConsumeWithoutComplete(lines: seq<string>, decode: string -> Option<Record>)
    requires forall k :: 0 <= k < |lines| ==> !Handle(lines[k], decode).Finish?
    ensures Consume(lines, decode) == Consumed(Reports(Actions(lines, decode)), Open)
  {
    SettleWithoutFinish(Actions(lines, decode));
  }

  /** With the first `complete` record at `i`, the progress records before `i` are reported
      and the record's results are returned. */
  lemma ConsumeFirstComplete(lines: seq<string>, i: nat, decode: string -> Option<Record>)
    requires i < |lines| && Handle(lines[i], decode).Finish?
    requires forall k :: 0 <= k < i ==> !Handle(lines[k], decode).Finish?
    ensures Consume(lines, decode)
            == Consumed(Reports(Actions(lines[..i], decode)), Closed(Handle(lines[i], decode).results))
  {
    var actions := Actions(lines, decode);
    SettleFirstFinish(actions, i);
    assert actions[..i] == Actions(lines[..i], decode);
  }

  /** `for (const line of lines)`, returning at the first `complete` record. */
  method DispatchLines(lines: seq<string>, decode: string -> Option<Record>)
    returns (calls: seq<ProgressCall>, ending: Ending)
    ensures Consumed(calls, ending) == Consume(lines, decode)
  {
    calls := [];
    for k := 0 to |lines|
      invariant Consume(lines[..k], decode) == Consumed(calls, Open)
    {
      var line := lines[k];
      ConsumeAppend(lines[..k], [line], decode);
      ConsumeCons([line], decode);
      assert [line][1..] == [] && Actions([], decode) == [];
      assert lines[..k + 1] == lines[..k] + [line];
      match Handle(line, decode) {
        case Skip =>
        case Report(call) =>
          calls := calls + [call];
        case Finish(results) =>
          ending := Closed(results);
          NothingAfterComplete(lines[..k + 1], lines[k + 1..], decode);
          assert lines[..k + 1] + lines[k + 1..] == lines;
          return;
      }
    }
    assert lines[..|lines|] == lines;
    ending := Open;
  }

  // ----- the stream -----

  /** What `fetch` gives back: a refusal whose JSON body may carry `detail`, or a streamed body
      as the chunks `TextDecoder` turns the reads into. */
  datatype Response = Rejected(detail: Option<string>) | Streamed(chunks: seq<string>)

  /** How `analyzeTextStream` ends: it throws, returns the `results` of a `complete` record
      (`None` when the record has none), or returns nothing when the stream ends first. */
  datatype StreamOutcome = Thrown(message: string) | Returned(results: Option<seq<Processed>>) | ReturnedNothing

  /** The progress calls made and the outcome. */
  datatype Run = Run(calls: seq<ProgressCall>, outcome: StreamOutcome)

  const RequestFailed := "분석 요청 실패"

  /** `errData.detail || '분석 요청 실패'`: an absent or empty detail is falsy. */
  function RejectionMessage(detail: Option<string>): (m: string)
    ensures detail.Some? && detail.value != "" ==> m == detail.value
    ensures detail.None? || detail == Some("") ==> m == RequestFailed
  {
    if detail.Some? && detail.value != "" then detail.value else RequestFailed
  }

  /** The reading as a whole: the complete lines of everything received, handled until the
      first `complete` record. */
  function StreamRun(response: Response, decode: string -> Option<Record>): Run {
    match response
      case Rejected(detail) => Run([], Thrown(RejectionMessage(detail)))
      case Streamed(chunks) =>
        var c := Consume(CompleteLines(Concat(chunks)), decode);
        Run(c.calls, if c.ending.Closed? then Returned(c.ending.results) else ReturnedNothing)
  }

  predicate NoNewlines(lines: seq<string>) {
    forall k :: 0 <= k < |lines| ==> '\n' !in lines[k]
  }

  /** What holds between reads: the text received from the first `i` chunks is the handled
      lines, each followed by `\n`, then the buffer, which holds no `\n`; the handled lines
      have made the progress calls `calls` and no `complete` record was among them. */
  ghost predicate Reading(
    chunks: seq<string>, i: nat, handled: seq<string>, buffer: string, calls: seq<ProgressCall>,
    decode: string -> Option<Record>)
  {
    i <= |chunks|
    && Terminated(handled) + buffer + Concat(chunks[i..]) == Concat(chunks)
    && '\n' !in buffer && NoNewlines(handled)
    && Consume(handled, decode) == Consumed(calls, Open)
  }

  /** Appending the chunk to the buffer and splitting keeps the received text framed as the
      handled lines, the new lines, and the popped tail. */
  lemma ReadFraming(handled: seq<string>, buffer: string, chunk: string, rest: string)
    requires NoNewlines(handled)
    ensures var received := buffer + chunk;
            Terminated(handled + CompleteLines(received)) + PartialLine(received) + rest
              == Terminated(handled) + buffer + (chunk + rest)
    ensures NoNewlines(handled + CompleteLines(buffer + chunk))
  {
    var received := buffer + chunk;
    var lines := CompleteLines(received);
    assert received == Terminated(lines) + PartialLine(received) by {
      SplitFrames(received);
    }
    assert NoNewlines(lines) by {
      SplitFrames(received);
    }
    assert Terminated(handled + lines) == Terminated(handled) + Terminated(lines) by {
      TerminatedAppend(handled, lines);
    }
    assert forall k :: |handled| <= k < |handled + lines| ==> (handled + lines)[k] == lines[k - |handled|];
    calc {
      Terminated(handled + lines) + PartialLine(received) + rest;
      Terminated(handled) + Terminated(lines) + PartialLine(received) + rest;
      Terminated(handled) + (Terminated(lines) + PartialLine(received)) + rest;
      Terminated(handled) + received + rest;
      Terminated(handled) + buffer + (chunk + rest);
    }
  }

  /** The text received up to a read, framed after it. */
  lemma ReadReframes(chunks: seq<string>, i: nat, handled: seq<string>, buffer: string)
    requires i < |chunks| && NoNewlines(handled)
    requires Terminated(handled) + buffer + Concat(chunks[i..]) == Concat(chunks)
    ensures var received := buffer + chunks[i];
            Terminated(handled + CompleteLines(received)) + (PartialLine(received) + Concat(chunks[i + 1..]))
              == Concat(chunks)
    ensures NoNewlines(handled + CompleteLines(buffer + chunks[i]))
  {
    var rest := Concat(chunks[i + 1..]);
    assert Concat(chunks[i..]) == chunks[i] + rest by {
      assert chunks[i..][1..] == chunks[i + 1..];
    }
    ReadFraming(handled, buffer, chunks[i], rest);
  }

  /** A read without a `complete` record preserves `Reading`. */
  lemma ReadStepOpen(
    chunks: seq<string>, i: nat, handled: seq<string>, buffer: string, calls: seq<ProgressCall>,
    decode: string -> Option<Record>, newCalls: seq<ProgressCall>)
    requires i < |chunks| && Reading(chunks, i, handled, buffer, calls, decode)
    requires Consumed(newCalls, Open) == Consume(CompleteLines(buffer + chunks[i]), decode)
    ensures Reading(chunks, i + 1, handled + CompleteLines(buffer + chunks[i]),
                    PartialLine(buffer + chunks[i]), calls + newCalls, decode)
  {
    ReadReframes(chunks, i, handled, buffer);
    ConsumeAppend(handled, CompleteLines(buffer + chunks[i]), decode);
  }

  /** A read that brings a `complete` record ends the whole reading with its results. */
  lemma ReadStepClosed(
    chunks: seq<string>, i: nat, handled: seq<string>, buffer: string, calls: seq<ProgressCall>,
    decode: string -> Option<Record>, newCalls: seq<ProgressCall>, results: Option<seq<Processed>>)
    requires i < |chunks| && Reading(chunks, i, handled, buffer, calls, decode)
    requires Consumed(newCalls, Closed(results)) == Consume(CompleteLines(buffer + chunks[i]), decode)
    ensures StreamRun(Streamed(chunks), decode) == Run(calls + newCalls, Returned(results))
  {
    var lines := CompleteLines(buffer + chunks[i]);
    var after := handled + lines;
    ReadReframes(chunks, i, handled, buffer);
    ConsumeAppend(handled, lines, decode);
    assert Consume(after, decode) == Consumed(calls + newCalls, Closed(results));
    ClosedReading(after, PartialLine(buffer + chunks[i]) + Concat(chunks[i + 1..]), decode);
  }

  /** A reading closed within the handled lines is the whole reading. */
  lemma ClosedReading(handled: seq<string>, rest: string, decode: string -> Option<Record>)
    requires NoNewlines(handled) && Consume(handled, decode).ending.Closed?
    ensures Consume(CompleteLines(Terminated(handled) + rest), decode) == Consume(handled, decode)
  {
    CompleteLinesAfter(handled, rest);
    NothingAfterComplete(handled, CompleteLines(rest), decode);
  }

  /** When the stream ends, only the handled lines were complete: the reading returns nothing. */
  lemma ReadEnd(chunks: seq<string>, handled: seq<string>, buffer: string, calls: seq<ProgressCall>, decode: string -> Option<Record>)
    requires Reading(chunks, |chunks|, handled, buffer, calls, decode)
    ensures StreamRun(Streamed(chunks), decode) == Run(calls, ReturnedNothing)
  {
    assert Concat(chunks) == Terminated(handled) + buffer by {
      assert chunks[|chunks|..] == [];
    }
    NoCompleteLine(buffer);
    CompleteLinesAfter(handled, buffer);
    assert handled + [] == handled;
    assert CompleteLines(Concat(chunks)) == handled;
  }

  /** The body of the reading loop for one chunk: `buffer += chunk`, split at `\n`, keep the
      popped tail as the new buffer and dispatch the complete lines. */
  method ReadChunk(buffer: string, chunk: string, decode: string -> Option<Record>)
    returns (tail: string, lines: seq<string>, calls: seq<ProgressCall>, ending: Ending)
    ensures lines == CompleteLines(buffer + chunk) && tail == PartialLine(buffer + chunk)
    ensures Consumed(calls, ending) == Consume(lines, decode)
  {
    var pieces := SplitOn(buffer + chunk, '\n');
    tail := pieces[|pieces| - 1];
    lines := pieces[..|pieces| - 1];
    calls, ending := DispatchLines(lines, decode);
  }

  /** `analyzeTextStream(text, apiKey, onProgress)`, given the response to its request.
      `calls` are the `onProgress` calls in order. */
  method AnalyzeTextStream(response: Response, decode: string -> Option<Record>)
    returns (calls: seq<ProgressCall>, outcome: StreamOutcome)
    ensures Run(calls, outcome) == StreamRun(response, decode)
  {
    calls := [];
    var chunks: seq<string>;
    match response {
      case Rejected(detail) =>
        outcome := Thrown(RejectionMessage(detail));
        return;
      case Streamed(cs) =>
        chunks := cs;
    }
    var buffer := "";
    ghost var handled: seq<string> := [];
    var i := 0;
    while i < |chunks|
      invariant Reading(chunks, i, handled, buffer, calls, decode)
    {
      var lines, newCalls, ending;
      ghost var before := buffer;
      buffer, lines, newCalls, ending := ReadChunk(buffer, chunks[i], decode);
      if ending.Closed? {
        ReadStepClosed(chunks, i, handled, before, calls, decode, newCalls, ending.results);
        calls := calls + newCalls;
        outcome := Returned(ending.results);
        return;
      }
      ReadStepOpen(chunks, i, handled, before, calls, decode, newCalls);
      calls := calls + newCalls;
      handled := handled + lines;
      i := i + 1;
    }
    ReadEnd(chunks, handled, buffer, calls, decode);
    outcome := ReturnedNothing;
  }

  /** A trailing line with no `\n` after it is never parsed: the outcome is that of the
      terminated lines alone. */
  lemma PartialLineNeverParsed(lines: seq<string>, tail: string, decode: string -> Option<Record>)
    requires NoNewlines(lines) && '\n' !in tail
    ensures StreamRun(Streamed([Terminated(lines) + tail]), decode)
              == StreamRun(Streamed([Terminated(lines)]), decode)
  {
    assert Concat([Terminated(lines) + tail]) == Terminated(lines) + tail;
    assert Concat([Terminated(lines)]) == Terminated(lines) + "";
    NoCompleteLine(tail);
    NoCompleteLine("");
    CompleteLinesAfter(lines, tail);
    CompleteLinesAfter(lines, "");
  }

  // ----- the front end against the back end -----

  /** The record the back end writes for an event, as the front end's field reads see it:
      progress and error records carry only `status` and `message`, and `complete` only
      `status` and `results`. */
  function AsRecord(e: Event): Record {
    match e
      case Progress(m) => Record(Some("progress"), None, None, Some(m), None)
      case Error(m) => Record(Some("error"), None, None, Some(m), None)
      case Complete(r) => Record(Some("complete"), None, None, None, Some(r))
  }

  /** What the front end makes of a sequence of back-end events. */
  function EventsSeen(events: seq<Event>): Consumed {
    if events == [] then Consumed([], Open)
    else match events[0]
      case Progress(m) =>
        var rest := EventsSeen(events[1..]);
        Consumed([ProgressCall(None, None, Some(m))] + rest.calls, rest.ending)
      case Error(_) => EventsSeen(events[1..])
      case Complete(r) => Consumed([], Closed(Some(r)))
  }

  /** The encoder and the parser agree on every event. */
  ghost predicate RoundTrips(encode: Event -> string, decode: string -> Option<Record>) {
    forall e :: '\n' !in encode(e) && !IsBlank(encode(e)) && decode(encode(e)) == Some(AsRecord(e))
  }

  /** The encoded records are read as the events they encode. */
  lemma {:induction false} ConsumeEncoded(events: seq<Event>, encode: Event -> string, decode: string -> Option<Record>)
    requires RoundTrips(encode, decode)
    ensures Consume(Encoded(events, encode), decode) == EventsSeen(events)
  {
    var lines := Encoded(events, encode);
    if events != [] {
      ConsumeEncoded(events[1..], encode, decode);
      ConsumeCons(lines, decode);
      assert lines[1..] == Encoded(events[1..], encode);
      assert lines[0] == encode(events[0]);
    } else {
      assert Actions(lines, decode) == [];
    }
  }

  /** Progress events ahead of the rest become one call each, with `current` and `total`
      undefined. */
  lemma {:induction false} EventsSeenProgress(p: seq<Event>, rest: seq<Event>)
    requires forall k :: 0 <= k < |p| ==> p[k].Progress?
    ensures var seen := EventsSeen(p + rest);
            var after := EventsSeen(rest);
            |seen.calls| == |p| + |after.calls| && seen.ending == after.ending
            && seen.calls[|p|..] == after.calls
            && forall k :: 0 <= k < |p| ==> seen.calls[k] == ProgressCall(None, None, Some(p[k].message))
  {
    if p != [] {
      EventsSeenProgress(p[1..], rest);
      assert (p + rest)[1..] == p[1..] + rest;
      assert (p + rest)[0] == p[0];
    } else {
      assert p + rest == rest;
    }
  }

  /** The complete lines of a body that carries the encoded events are read as the events. */
  lemma WireRead(chunks: seq<string>, events: seq<Event>, encode: Event -> string, decode: string -> Option<Record>)
    requires RoundTrips(encode, decode)
    requires Concat(chunks) == Wire(events, encode)
    ensures Consume(CompleteLines(Concat(chunks)), decode) == EventsSeen(events)
  {
    WireSplitsIntoRecords(events, encode);
    var encoded := Encoded(events, encode);
    assert CompleteLines(Concat(chunks)) == encoded by {
      assert (encoded + [""])[..|encoded + [""]| - 1] == encoded;
    }
    ConsumeEncoded(events, encode, decode);
  }

  /** No call has a `current` or a `total`. */
  predicate NoCounts(calls: seq<ProgressCall>) {
    forall k :: 0 <= k < |calls| ==> calls[k].current == None && calls[k].total == None
  }

  /** The back end fails before the detector runs: one call, then the error is dropped. */
  lemma SeenConstructionError(
    text: seq<string>, error: string,
    detect: seq<string> -> Attempt<seq<DetectionResult>>, suggest: DetectionResult -> Attempt<string>)
    ensures var seen := EventsSeen(StreamEvents(text, Some(error), detect, suggest));
            seen.ending == Open && |seen.calls| == 1 && NoCounts(seen.calls)
  {
    var p := [Progress(LoadingMessage)];
    var e := Error(AnalysisErrorPrefix + error);
    assert StreamEvents(text, Some(error), detect, suggest) == p + [e];
    EventsSeenProgress(p, [e]);
  }

  /** The detector fails: two calls, then the error is dropped. */
  lemma SeenDetectFailure(
    text: seq<string>, detect: seq<string> -> Attempt<seq<DetectionResult>>, suggest: DetectionResult -> Attempt<string>)
    requires detect(text).Failed?
    ensures var seen := EventsSeen(StreamEvents(text, None, detect, suggest));
            seen.ending == Open && |seen.calls| == 2 && NoCounts(seen.calls)
  {
    var p := [Progress(LoadingMessage), Progress(CountMessage(|text|))];
    var e := Error(AnalysisErrorPrefix + detect(text).error);
    assert StreamEvents(text, None, detect, suggest) == p + [e];
    EventsSeenProgress(p, [e]);
  }

  /** The detector succeeds: one call per progress event, then the final results. */
  lemma SeenSuccess(
    text: seq<string>, detect: seq<string> -> Attempt<seq<DetectionResult>>, suggest: DetectionResult -> Attempt<string>)
    requires detect(text).Ok?
    ensures var seen := EventsSeen(StreamEvents(text, None, detect, suggest));
            seen.ending == Closed(Some(Finalise(detect(text).value, suggest)))
            && |seen.calls| == 2 + CountToxic(detect(text).value) && NoCounts(seen.calls)
  {
    var raw := detect(text).value;
    var p := [Progress(LoadingMessage), Progress(CountMessage(|text|))]
             + SuggestingEvents(IdsOf(ToxicPositions(raw)));
    var c := Complete(Finalise(raw, suggest));
    assert StreamEvents(text, None, detect, suggest) == p + [c];
    EventsSeenProgress(p, [c]);
  }

  /** The body of the back end's `/analyze` is read exactly as the back end meant it, except
      for what the two sides disagree on: on success the front end returns the results of the
      `complete` record after one progress call per progress event, none of which has a
      `current` or a `total`; when the back end reports an error, the front end returns
      nothing and the error message is only logged. */
  lemma FrontendOnBackendStream(
    chunks: seq<string>, text: seq<string>, constructionError: Option<string>,
    detect: seq<string> -> Attempt<seq<DetectionResult>>, suggest: DetectionResult -> Attempt<string>,
    encode: Event -> string, decode: string -> Option<Record>)
    requires RoundTrips(encode, decode)
    requires Concat(chunks) == Wire(StreamEvents(text, constructionError, detect, suggest), encode)
    ensures var run := StreamRun(Streamed(chunks), decode);
            NoCounts(run.calls) && |run.calls| >= 1
            && (constructionError.None? && detect(text).Ok? ==>
                  run.outcome == Returned(Some(Finalise(detect(text).value, suggest)))
                  && |run.calls| == 2 + CountToxic(detect(text).value))
            && (constructionError.Some? || detect(text).Failed? ==> run.outcome == ReturnedNothing)
  {
    WireRead(chunks, StreamEvents(text, constructionError, detect, suggest), encode, decode);
    if constructionError.Some? {
      SeenConstructionError(text, constructionError.value, detect, suggest);
    } else if detect(text).Failed? {
      SeenDetectFailure(text, detect, suggest);
    } else {
      SeenSuccess(text, detect, suggest);
    }
  }

  // ----- highlighting -----

  datatype Highlight = Plain | Red | Yellow

  /** The colour of a matched line: none for a safe result; for a toxic one,
      `score = matchedResult.score || 0.9` (an absent or zero score is falsy) and red above
      0.8, yellow otherwise. */
  function HighlightFor(isToxic: bool, score: Option<real>): (h: Highlight)
    ensures !isToxic ==> h == Plain
    ensures isToxic && (score.None? || score == Some(0.0)) ==> h == Red
    ensures isToxic && score.Some? && score.value != 0.0 ==> (h == Red <==> score.value > 0.8)
  {
    if !isToxic then Plain
    else
      var s := if score.None? || score.value == 0.0 then 0.9 else score.value;
      if s > 0.8 then Red else Yellow
  }

  /** The `score` field of a result as the back end sends it: there is none, the back end's
      field is `risk_score`. */
  function ScoreField(p: Processed): Option<real> {
    None
  }

  function Min(a: nat, b: nat): nat {
    if a <= b then a else b
  }

  /** The `find` predicate: the trimmed line starts with the trimmed first 15 characters of
      the clause, or is a part of the clause longer than 10 characters. */
  predicate LineMatches(line: string, clause: string) {
    var t := JsTrim(line);
    StartsWith(t, JsTrim(clause[..Min(15, |clause|)])) || (Contains(clause, t) && |t| > 10)
  }

  /** The position of the first result whose clause matches the line, `|results|` when
      there is none. */
  function MatchIndex(line: string, results: seq<Processed>): (k: nat)
    ensures k <= |results|
    ensures k < |results| ==> LineMatches(line, results[k].result.clause)
    ensures forall j :: 0 <= j < k ==> !LineMatches(line, results[j].result.clause)
  {
    if results == [] || LineMatches(line, results[0].result.clause) then 0
    else
      var k := MatchIndex(line, results[1..]);
      assert forall j :: 1 <= j < k + 1 ==> results[j] == results[1..][j - 1];
      k + 1
  }

  /** `resultList.find(...)`: the first result whose clause matches the line. */
  function MatchedResult(line: string, results: seq<Processed>): (m: Option<Processed>)
    ensures m.None? <==> forall k :: 0 <= k < |results| ==> !LineMatches(line, results[k].result.clause)
    ensures m.Some? ==> m.value == results[MatchIndex(line, results)]
  {
    var k := MatchIndex(line, results);
    if k < |results| then Some(results[k]) else None
  }

  /** The highlight of one line of `pdfText.split('\n')` in the result view: none for a blank
      line or a line no result matches. */
  function LineHighlight(line: string, results: seq<Processed>): Highlight {
    if IsBlank(line) then Plain
    else match MatchedResult(line, results)
      case None => Plain
      case Some(p) => HighlightFor(p.result.isToxic, ScoreField(p))
  }

  /** With the back end's results every matched toxic line is red and no line is ever
      yellow: the front end reads a `score` the back end never sends. */
  lemma BackendToxicAlwaysRed(line: string, results: seq<Processed>)
    ensures LineHighlight(line, results) != Yellow
    ensures !IsBlank(line) && MatchedResult(line, results).Some?
            && MatchedResult(line, results).value.result.isToxic
            ==> LineHighlight(line, results) == Red
  {
  }

  /** A non-blank line that starts with the opening of a clause is matched, to that result or
      an earlier one. */
  lemma ClauseHeadMatches(line: string, results: seq<Processed>, k: nat)
    requires k < |results| && !IsBlank(line)
    requires StartsWith(JsTrim(line), JsTrim(results[k].result.clause[..Min(15, |results[k].result.clause|)]))
    ensures MatchedResult(line, results).Some?
  {
    assert LineMatches(line, results[k].result.clause);
  }

  // ----- the dashboard -----

  datatype Step = UploadStep | ReviewStep | ResultStep

  const PreparingMessage := "분석 준비 중..."
  const AnalysisFailedPrefix := "분석 중 오류가 발생했습니다: "
  const MinSidebarWidth: real := 350.0

  /** `expandedId === item.id ? null : item.id`. */
  function Toggled(expanded: Option<nat>, id: nat): (r: Option<nat>)
    ensures r == None <==> expanded == Some(id)
    ensures r != None ==> r == Some(id)
  {
    if expanded == Some(id) then None else Some(id)
  }

  /** Toggling the same card twice closes it, unless it was the open card to begin with. */
  lemma ToggleTwice(expanded: Option<nat>, id: nat)
    ensures Toggled(Toggled(expanded, id), id) == if expanded == Some(id) then Some(id) else None
  {
  }

  /** `handleMouseMove`'s width: `innerWidth - clientX`, raised to 350, then lowered to half
      the window. */
  function ClampedWidth(innerWidth: real, clientX: real): (w: real)
    ensures w <= innerWidth / 2.0
    ensures innerWidth / 2.0 >= MinSidebarWidth ==> w >= MinSidebarWidth
    ensures MinSidebarWidth <= innerWidth - clientX <= innerWidth / 2.0 ==> w == innerWidth - clientX
  {
    var raw := innerWidth - clientX;
    var atLeast := if raw < MinSidebarWidth then MinSidebarWidth else raw;
    if atLeast > innerWidth / 2.0 then innerWidth / 2.0 else atLeast
  }

  /** The progress the page shows after a run: the last call, or the status set before the
      request when there was none. */
  function ShownProgress(calls: seq<ProgressCall>): (p: ProgressCall)
    ensures calls != [] ==> p == calls[|calls| - 1]
    ensures calls == [] ==> p == ProgressCall(Some(0), Some(0), Some(PreparingMessage))
  {
    if calls == [] then ProgressCall(Some(0), Some(0), Some(PreparingMessage)) else calls[|calls| - 1]
  }

  /** After a run against the back end the page shows neither a `current` nor a `total`. */
  lemma ProgressCountsUndefined(
    chunks: seq<string>, text: seq<string>, constructionError: Option<string>,
    detect: seq<string> -> Attempt<seq<DetectionResult>>, suggest: DetectionResult -> Attempt<string>,
    encode: Event -> string, decode: string -> Option<Record>)
    requires RoundTrips(encode, decode)
    requires Concat(chunks) == Wire(StreamEvents(text, constructionError, detect, suggest), encode)
    ensures var shown := ShownProgress(StreamRun(Streamed(chunks), decode).calls);
            shown.current == None && shown.total == None
  {
    FrontendOnBackendStream(chunks, text, constructionError, detect, suggest, encode, decode);
  }

  /** `handleAnalyze` as written: whatever `analyzeTextStream` returns becomes `resultList`
      and the view switches to the results; `None` stands for `undefined`. A throw keeps the
      step and the list. */
  function AnalysisStateAsWritten(outcome: StreamOutcome, step: Step, list: Option<seq<Processed>>)
    : (r: (Step, Option<seq<Processed>>))
    ensures outcome.Thrown? ==> r == (step, list)
    ensures outcome.ReturnedNothing? ==> r == (ResultStep, None)
    ensures outcome.Returned? ==> r == (ResultStep, outcome.results)
  {
    match outcome
      case Thrown(_) => (step, list)
      case Returned(results) => (ResultStep, results)
      case ReturnedNothing => (ResultStep, None)
  }

  /** When the back end reports an error, the page as written enters the result view with an
      undefined result list, on which `resultList.filter(...)` throws. */
  lemma BackendErrorLeavesNoList(
    chunks: seq<string>, text: seq<string>, constructionError: Option<string>,
    detect: seq<string> -> Attempt<seq<DetectionResult>>, suggest: DetectionResult -> Attempt<string>,
    encode: Event -> string, decode: string -> Option<Record>, step: Step, list: Option<seq<Processed>>)
    requires RoundTrips(encode, decode)
    requires Concat(chunks) == Wire(StreamEvents(text, constructionError, detect, suggest), encode)
    requires constructionError.Some? || detect(text).Failed?
    ensures AnalysisStateAsWritten(StreamRun(Streamed(chunks), decode).outcome, step, list) == (ResultStep, None)
  {
    FrontendOnBackendStream(chunks, text, constructionError, detect, suggest, encode, decode);
  }

  /** The state of `App`. */
  class Dashboard {
    var step: Step
    var resultList: seq<Processed>
    var showToxicOnly: bool
    var expandedId: Option<nat>
    var sidebarWidth: real
    var isResizing: bool
    var progress: ProgressCall
    /** The text of the last `alert`, if any. */
    var notice: Option<string>

    /** The initial `useState` values. */
    constructor ()
      ensures step == UploadStep && resultList == [] && !showToxicOnly && expandedId == None
      ensures sidebarWidth == 500.0 && !isResizing && notice == None
      ensures progress == ProgressCall(Some(0), Some(0), Some(""))
    {
      step := UploadStep;
      resultList := [];
      showToxicOnly := false;
      expandedId := None;
      sidebarWidth := 500.0;
      isResizing := false;
      progress := ProgressCall(Some(0), Some(0), Some(""));
      notice := None;
    }

    /** `filteredResults`: the toxic results in order when the filter is on, all otherwise. */
    function FilteredResults(): (r: seq<Processed>)
      reads this
      ensures showToxicOnly ==> r == ToxicOnly(resultList)
      ensures !showToxicOnly ==> r == resultList
    {
      if showToxicOnly then ToxicOnly(resultList) else resultList
    }

    /** `toxicCount`: the number of toxic results, whichever filter is shown. */
    function ToxicCount(): (n: nat)
      reads this
      ensures n <= |resultList|
      ensures n == |ToxicOnly(resultList)|
    {
      |ToxicOnly(resultList)|
    }

    /** `toggleExpand(item)`: opens the card of `id`, or closes it when it is the open one. */
    method ToggleExpand(id: nat)
      modifies this
      ensures expandedId == Toggled(old(expandedId), id)
      ensures step == old(step) && resultList == old(resultList) && showToxicOnly == old(showToxicOnly)
      ensures sidebarWidth == old(sidebarWidth) && isResizing == old(isResizing)
      ensures progress == old(progress) && notice == old(notice)
    {
      expandedId := if expandedId == Some(id) then None else Some(id);
    }

    /** `onMouseDown` on the handle, and the `mouseup` listener. */
    method SetResizing(on: bool)
      modifies this
      ensures isResizing == on
      ensures step == old(step) && resultList == old(resultList) && showToxicOnly == old(showToxicOnly)
      ensures sidebarWidth == old(sidebarWidth) && expandedId == old(expandedId)
      ensures progress == old(progress) && notice == old(notice)
    {
      isResizing := on;
    }

    /** `handleMouseMove(e)`: while resizing, the sidebar takes the width right of the pointer,
      clamped. */
    method MouseMove(innerWidth: real, clientX: real)
      modifies this
      ensures isResizing ==> sidebarWidth == ClampedWidth(innerWidth, clientX)
      ensures !isResizing ==> sidebarWidth == old(sidebarWidth)
      ensures step == old(step) && resultList == old(resultList) && showToxicOnly == old(showToxicOnly)
      ensures isResizing == old(isResizing) && expandedId == old(expandedId)
      ensures progress == old(progress) && notice == old(notice)
    {
      if !isResizing {
        return;
      }
      var newWidth := innerWidth - clientX;
      var maxWidth := innerWidth / 2.0;
      if newWidth < MinSidebarWidth {
        newWidth := MinSidebarWidth;
      }
      if newWidth > maxWidth {
        newWidth := maxWidth;
      }
      sidebarWidth := newWidth;
    }

    /** `handleAnalyze()` with the correction of the missing-results case: the view switches
      to the results only when a list arrived; a throw, or a stream that ends without
      results, raises an alert and keeps the step and the list. */
    method HandleAnalyze(response: Response, decode: string -> Option<Record>)
      modifies this
      ensures var run := StreamRun(response, decode);
              progress == ShownProgress(run.calls)
              && (run.outcome.Returned? && run.outcome.results.Some? ==>
                    step == ResultStep && resultList == run.outcome.results.value && notice == old(notice))
              && (run.outcome.Thrown? ==>
                    step == old(step) && resultList == old(resultList)
                    && notice == Some(AnalysisFailedPrefix + run.outcome.message))
              && (run.outcome.ReturnedNothing? || run.outcome == Returned(None) ==>
                    step == old(step) && resultList == old(resultList) && notice == Some(AnalysisFailedPrefix))
      ensures showToxicOnly == old(showToxicOnly) && expandedId == old(expandedId)
      ensures sidebarWidth == old(sidebarWidth) && isResizing == old(isResizing)
    {
      progress := ProgressCall(Some(0), Some(0), Some(PreparingMessage));
      var calls, outcome := AnalyzeTextStream(response, decode);
      if calls != [] {
        progress := calls[|calls| - 1];
      }
      match outcome {
        case Thrown(message) =>
          notice := Some(AnalysisFailedPrefix + message);
        case Returned(results) =>
          if results.Some? {
            resultList := results.value;
            step := ResultStep;
          } else {
            notice := Some(AnalysisFailedPrefix);
          }
        case ReturnedNothing =>
          notice := Some(AnalysisFailedPrefix);
      }
    }
  }

  /** With the correction, a back-end error keeps the page where it was, and a successful run
      shows every post-processed result and counts the toxic ones as the back end did. */
  lemma BackendRunOnDashboard(
    chunks: seq<string>, text: seq<string>, constructionError: Option<string>,
    detect: seq<string> -> Attempt<seq<DetectionResult>>, suggest: DetectionResult -> Attempt<string>,
    encode: Event -> string, decode: string -> Option<Record>)
    requires RoundTrips(encode, decode)
    requires Concat(chunks) == Wire(StreamEvents(text, constructionError, detect, suggest), encode)
    ensures var run := StreamRun(Streamed(chunks), decode);
            (constructionError.Some? || detect(text).Failed? ==> run.outcome == ReturnedNothing)
            && (constructionError.None? && detect(text).Ok? ==>
                  run.outcome.Returned? && run.outcome.results.Some?
                  && |ToxicOnly(run.outcome.results.value)| == CountToxic(detect(text).value))
  {
    FrontendOnBackendStream(chunks, text, constructionError, detect, suggest, encode, decode);
    if constructionError.None? && detect(text).Ok? {
      ToxicOnlyOfFinalise(detect(text).value, suggest);
    }
  }
}
