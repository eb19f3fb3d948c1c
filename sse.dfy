/** The server-sent-event framing of `transcribe_stream` (mistral/realtime.rs):
    chunks of response text are buffered, complete events are cut at the
    first blank line, and the `data: ` lines of each event are parsed until a
    `[DONE]` marker. The HTTP request and the JSON parser are not modelled:
    the parser is the parameter `parse`. */
module Sse {
  import opened Wrappers
  import opened Realtime

  /** One item of the response body stream, already decoded to text. */
  datatype Chunk = Bytes(text: string) | Failed(reason: string)

  /** How `transcribe_stream` returns: at the end of the body, on a `[DONE]`
      marker, or with the stream's error. */
  datatype StreamEnd = Finished | DoneMarker | ReadFailed(reason: string)

  // ---------------------------------------------------------------------------
  // Cutting events at the first "\n\n"

  predicate BreakAt(s: string, j: int)
  {
    0 <= j && j + 1 < |s| && s[j] == '\n' && s[j + 1] == '\n'
  }

  /** `buffer.find("\n\n")` from position `i` on. */
  function FindBreakFrom(s: string, i: nat): (r: Option<nat>)
    ensures r.Some? ==> i <= r.value && BreakAt(s, r.value)
                        && forall j :: i <= j < r.value ==> !BreakAt(s, j)
    ensures r.None? ==> forall j :: i <= j ==> !BreakAt(s, j)
    decreases |s| - i
  {
    if i + 1 >= |s| then None
    else if s[i] == '\n' && s[i + 1] == '\n' then Some(i)
    else FindBreakFrom(s, i + 1)
  }

  function FindBreak(s: string): (r: Option<nat>)
    ensures r.Some? ==> BreakAt(s, r.value) && forall j :: 0 <= j < r.value ==> !BreakAt(s, j)
    ensures r.None? ==> forall j :: 0 <= j ==> !BreakAt(s, j)
  {
    FindBreakFrom(s, 0)
  }

  lemma FindBreakIs(s: string, p: nat)
    requires BreakAt(s, p) && forall j :: 0 <= j < p ==> !BreakAt(s, j)
    ensures FindBreak(s) == Some(p)
  {
  }

  /** Appending text cannot move the first break of a text that has one. */
  lemma FindBreakExtend(s: string, c: string)
    requires FindBreak(s).Some?
    ensures FindBreak(s + c) == FindBreak(s)
  {
    var p := FindBreak(s).value;
    assert BreakAt(s + c, p);
    forall j | 0 <= j < p ensures !BreakAt(s + c, j) {
      assert !BreakAt(s, j);
    }
    FindBreakIs(s + c, p);
  }

  datatype Split = Split(events: seq<string>, rest: string)

  /** The complete events of a text, in order, and the unterminated rest. */
  function SplitEvents(s: string): Split
    decreases |s|
  {
    match FindBreak(s)
    case None => Split([], s)
    case Some(p) =>
      var tail := SplitEvents(s[p + 2..]);
      Split([s[..p]] + tail.events, tail.rest)
  }

  /** The text an event sequence and a rest were cut from. */
  function Rejoin(events: seq<string>, rest: string): string
  {
    if events == [] then rest else events[0] + "\n\n" + Rejoin(events[1..], rest)
  }

  /** Cutting loses nothing: the events, each followed by its blank line, and
      the rest give back the text; no event holds a blank line and the rest
      holds no complete event. */
  lemma {:induction false} SplitRoundTrip(s: string)
    ensures Rejoin(SplitEvents(s).events, SplitEvents(s).rest) == s
    ensures FindBreak(SplitEvents(s).rest).None?
    ensures forall k :: 0 <= k < |SplitEvents(s).events| ==> FindBreak(SplitEvents(s).events[k] + "\n").None?
    decreases |s|
  {
    match FindBreak(s) {
      case None =>
      case Some(p) =>
        var rest := s[p + 2..];
        SplitRoundTrip(rest);
        SplitUnfold(s, p);
        var ev := s[..p];
        var tail := SplitEvents(rest);
        RejoinCons(ev, tail.events, tail.rest);
        CutAt(s, p);
        EventHasNoBreak(s, p);
        var r := SplitEvents(s);
        forall k | 0 <= k < |r.events| ensures FindBreak(r.events[k] + "\n").None? {
          if k > 0 {
            assert r.events[k] == tail.events[k - 1];
          }
        }
    }
  }

  lemma RejoinCons(e: string, es: seq<string>, rest: string)
    ensures Rejoin([e] + es, rest) == e + "\n\n" + Rejoin(es, rest)
  {
    assert ([e] + es)[1..] == es;
  }

  lemma CutAt(s: string, p: nat)
    requires BreakAt(s, p)
    ensures s == s[..p] + "\n\n" + s[p + 2..]
  {
    assert s[p..p + 2] == "\n\n";
    assert s == s[..p] + s[p..p + 2] + s[p + 2..];
  }

  /** The first event of a text holds no blank line, not even with the line
      break that follows it. */
  lemma EventHasNoBreak(s: string, p: nat)
    requires FindBreak(s) == Some(p)
    ensures FindBreak(s[..p] + "\n").None?
  {
    var e := s[..p] + "\n";
    forall j | 0 <= j ensures !BreakAt(e, j) {
      if BreakAt(e, j) {
        assert j < p && BreakAt(s, j);
      }
    }
  }

  /** Cutting is incremental: cutting a text extended by `c` cuts the events
      of the text, then the events of its rest extended by `c`. */
  lemma {:induction false} SplitAppend(x: string, c: string)
    ensures var sx := SplitEvents(x);
            var sc := SplitEvents(sx.rest + c);
            SplitEvents(x + c) == Split(sx.events + sc.events, sc.rest)
    decreases |x|
  {
    match FindBreak(x) {
      case None =>
      case Some(p) =>
        var xs := x[p + 2..];
        FindBreakExtend(x, c);
        assert (x + c)[..p] == x[..p] && (x + c)[p + 2..] == xs + c;
        SplitUnfold(x + c, p);
        SplitUnfold(x, p);
        SplitAppend(xs, c);
        var sc := SplitEvents(SplitEvents(xs).rest + c);
        SeqAssoc([x[..p]], SplitEvents(xs).events, sc.events);
    }
  }

  lemma SplitUnfold(s: string, p: nat)
    requires FindBreak(s) == Some(p)
    ensures SplitEvents(s) == Split([s[..p]] + SplitEvents(s[p + 2..]).events, SplitEvents(s[p + 2..]).rest)
  {
  }

  // ---------------------------------------------------------------------------
  // Lines, prefixes and trimming

  /** The first '\n' from position `i` on. */
  function FindNewline(s: string, i: nat): (r: Option<nat>)
    ensures r.Some? ==> i <= r.value < |s| && s[r.value] == '\n'
    decreases |s| - i
  {
    if i >= |s| then None else if s[i] == '\n' then Some(i) else FindNewline(s, i + 1)
  }

  /** A line that ended in '\n' also loses a '\r' before it. */
  function StripCr(line: string): string
  {
    if |line| > 0 && line[|line| - 1] == '\r' then line[..|line| - 1] else line
  }

  /** `str::lines`: pieces between '\n's, a final '\n' adding no empty line. */
  function Lines(s: string): seq<string>
    decreases |s|
  {
    if s == [] then []
    else match FindNewline(s, 0)
      case None => [s]
      case Some(i) => [StripCr(s[..i])] + Lines(s[i + 1..])
  }

  const DATA_PREFIX: string := "data: "

  /** `line.strip_prefix("data: ")`. */
  function StripData(line: string): (r: Option<string>)
    ensures r.Some? <==> |line| >= |DATA_PREFIX| && line[..|DATA_PREFIX|] == DATA_PREFIX
    ensures r.Some? ==> line == DATA_PREFIX + r.value
  {
    if |line| >= |DATA_PREFIX| && line[..|DATA_PREFIX|] == DATA_PREFIX then Some(line[|DATA_PREFIX|..]) else None
  }

  /** `char::is_whitespace`: the Unicode White_Space characters. */
  predicate IsWhitespace(c: char)
  {
    var n := c as int;
    (0x09 <= n <= 0x0D) || n == 0x20 || n == 0x85 || n == 0xA0 || n == 0x1680
    || (0x2000 <= n <= 0x200A) || n == 0x2028 || n == 0x2029 || n == 0x202F
    || n == 0x205F || n == 0x3000
  }

  function TrimStart(s: string): (r: string)
    ensures |r| <= |s|
    ensures r == [] || !IsWhitespace(r[0])
    decreases |s|
  {
    if s != [] && IsWhitespace(s[0]) then TrimStart(s[1..]) else s
  }

  function TrimEnd(s: string): (r: string)
    ensures |r| <= |s|
    ensures r == [] || !IsWhitespace(r[|r| - 1])
    decreases |s|
  {
    if s != [] && IsWhitespace(s[|s| - 1]) then TrimEnd(s[..|s| - 1]) else s
  }

  /** `str::trim`. */
  function Trim(s: string): string
  {
    TrimEnd(TrimStart(s))
  }

  const DONE_MARKER: string := "[DONE]"

  predicate IsDone(data: string)
  {
    Trim(data) == DONE_MARKER
  }

  /** The marker is recognised with surrounding whitespace. */
  lemma DoneMarkerExamples()
    ensures IsDone("[DONE]")
    ensures IsDone(" [DONE]\r")
    ensures !IsDone("[DONE] x")
  {
    assert TrimStart("[DONE]") == "[DONE]";
    assert TrimEnd("[DONE]") == "[DONE]";
    assert " [DONE]\r"[1..] == "[DONE]\r";
    assert "[DONE]\r"[..6] == "[DONE]";
    assert TrimStart("[DONE] x") == "[DONE] x";
    assert TrimEnd("[DONE] x") == "[DONE] x";
  }

  // ---------------------------------------------------------------------------
  // Processing events

  datatype Processed = Processed(events: seq<TranscriptionEvent>, done: bool)

  /** The events sent for the `data: ` payloads of some lines, stopping at
      the first `[DONE]`. */
  function ProcessLines(lines: seq<string>, parse: string -> Option<TranscriptionEvent>): Processed
  {
    if lines == [] then Processed([], false)
    else match StripData(lines[0])
      case None => ProcessLines(lines[1..], parse)
      case Some(data) =>
        if IsDone(data) then Processed([], true)
        else
          var tail := ProcessLines(lines[1..], parse);
          Processed((match parse(data) case Some(e) => [e] case None => []) + tail.events, tail.done)
  }

  /** The events sent for a sequence of complete events. */
  function ProcessEvents(events: seq<string>, parse: string -> Option<TranscriptionEvent>): Processed
  {
    if events == [] then Processed([], false)
    else
      var first := ProcessLines(Lines(events[0]), parse);
      if first.done then first
      else
        var tail := ProcessEvents(events[1..], parse);
        Processed(first.events + tail.events, tail.done)
  }

  /** After a `[DONE]` nothing more is processed; before it, processing goes
      event by event. */
  lemma {:induction false} ProcessEventsAppend(a: seq<string>, b: seq<string>, parse: string -> Option<TranscriptionEvent>)
    ensures var pa := ProcessEvents(a, parse);
            ProcessEvents(a + b, parse)
            == if pa.done then pa else Processed(pa.events + ProcessEvents(b, parse).events, ProcessEvents(b, parse).done)
  {
    if a == [] {
      assert a + b == b;
    } else {
      assert (a + b)[0] == a[0] && (a + b)[1..] == a[1..] + b;
      ProcessEventsAppend(a[1..], b, parse);
      var first, pt, pb := ProcessLines(Lines(a[0]), parse), ProcessEvents(a[1..], parse), ProcessEvents(b, parse);
      if !first.done && !pt.done {
        SeqAssoc(first.events, pt.events, pb.events);
      }
    }
  }

  /** The same for the lines of one event. */
  lemma {:induction false} ProcessLinesAppend(a: seq<string>, b: seq<string>, parse: string -> Option<TranscriptionEvent>)
    ensures var pa := ProcessLines(a, parse);
            ProcessLines(a + b, parse)
            == if pa.done then pa else Processed(pa.events + ProcessLines(b, parse).events, ProcessLines(b, parse).done)
  {
    if a == [] {
      assert a + b == b;
    } else {
      assert (a + b)[0] == a[0] && (a + b)[1..] == a[1..] + b;
      ProcessLinesAppend(a[1..], b, parse);
      var pa, pt, pb := ProcessLines(a, parse), ProcessLines(a[1..], parse), ProcessLines(b, parse);
      match StripData(a[0]) {
        case None =>
        case Some(d) =>
          if !IsDone(d) && !pt.done {
            var e := match parse(d) case Some(x) => [x] case None => [];
            SeqAssoc(e, pt.events, pb.events);
          }
      }
    }
  }

  /** A line without the `data: ` prefix contributes nothing; a `[DONE]`
      line ends processing with nothing sent for it. */
  lemma LineKinds(line: string, rest: seq<string>, parse: string -> Option<TranscriptionEvent>)
    ensures StripData(line).None? ==> ProcessLines([line] + rest, parse) == ProcessLines(rest, parse)
    ensures StripData(line).Some? && IsDone(StripData(line).value) ==> ProcessLines([line] + rest, parse) == Processed([], true)
  {
    assert ([line] + rest)[0] == line && ([line] + rest)[1..] == rest;
  }

  // ---------------------------------------------------------------------------
  // The stream as a whole

  /** The text of the body up to its first failure, and that failure. */
  function BodyText(chunks: seq<Chunk>): string
  {
    if chunks == [] then ""
    else match chunks[0]
      case Failed(_) => ""
      case Bytes(t) => t + BodyText(chunks[1..])
  }

  function BodyFailure(chunks: seq<Chunk>): Option<string>
  {
    if chunks == [] then None
    else match chunks[0]
      case Failed(e) => Some(e)
      case Bytes(_) => BodyFailure(chunks[1..])
  }

  datatype Outcome = Outcome(events: seq<TranscriptionEvent>, end: StreamEnd)

  /** What `transcribe_stream` sends and how it returns, in terms of the body
      text alone: the complete events of `pending` followed by the body text,
      processed until `[DONE]`; the unterminated rest is dropped. */
  function TextOutcome(pending: string, chunks: seq<Chunk>, parse: string -> Option<TranscriptionEvent>): Outcome
  {
    var p := ProcessEvents(SplitEvents(pending + BodyText(chunks)).events, parse);
    if p.done then Outcome(p.events, DoneMarker)
    else match BodyFailure(chunks)
      case Some(e) => Outcome(p.events, ReadFailed(e))
      case None => Outcome(p.events, Finished)
  }

  function SseOutcome(chunks: seq<Chunk>, parse: string -> Option<TranscriptionEvent>): Outcome
  {
    TextOutcome("", chunks, parse)
  }

  /** The same, chunk by chunk, as the loop computes it: `buffer` is what is
      left over from the chunks already read. */
  function StreamFrom(chunks: seq<Chunk>, buffer: string, parse: string -> Option<TranscriptionEvent>): Outcome
  {
    if chunks == [] then Outcome([], Finished)
    else match chunks[0]
      case Failed(e) => Outcome([], ReadFailed(e))
      case Bytes(t) =>
        var split := SplitEvents(buffer + t);
        var p := ProcessEvents(split.events, parse);
        if p.done then Outcome(p.events, DoneMarker)
        else
          var tail := StreamFrom(chunks[1..], split.rest, parse);
          Outcome(p.events + tail.events, tail.end)
  }

  /** The chunk-by-chunk framing computes the text-level outcome: how the body
      is split into chunks does not matter. */
  lemma {:induction false} StreamIsTextOutcome(chunks: seq<Chunk>, buffer: string, parse: string -> Option<TranscriptionEvent>)
    requires FindBreak(buffer).None?
    ensures StreamFrom(chunks, buffer, parse) == TextOutcome(buffer, chunks, parse)
  {
    if chunks == [] {
      assert buffer + "" == buffer;
    } else {
      match chunks[0] {
        case Failed(e) =>
          assert buffer + "" == buffer;
        case Bytes(t) =>
          var split := SplitEvents(buffer + t);
          SplitRoundTrip(buffer + t);
          TextOutcomeCons(buffer, t, chunks, parse);
          StreamIsTextOutcome(chunks[1..], split.rest, parse);
      }
    }
  }

  /** The text-level outcome of a body that starts with some text `t`: the
      events completed by `t`, then the outcome of the rest of the body read
      after the new rest. */
  lemma TextOutcomeCons(buffer: string, t: string, chunks: seq<Chunk>, parse: string -> Option<TranscriptionEvent>)
    requires chunks != [] && chunks[0] == Bytes(t)
    ensures var split := SplitEvents(buffer + t);
            var p := ProcessEvents(split.events, parse);
            var tail := TextOutcome(split.rest, chunks[1..], parse);
            TextOutcome(buffer, chunks, parse)
            == if p.done then Outcome(p.events, DoneMarker) else Outcome(p.events + tail.events, tail.end)
  {
    var split := SplitEvents(buffer + t);
    var rest := BodyText(chunks[1..]);
    SeqAssoc(buffer, t, rest);
    SplitAppend(buffer + t, rest);
    var second := SplitEvents(split.rest + rest);
    ProcessEventsAppend(split.events, second.events, parse);
  }

  /** Two bodies with the same text and the same failure give the same
      events and the same return. */
  lemma ChunkingIrrelevant(c1: seq<Chunk>, c2: seq<Chunk>, parse: string -> Option<TranscriptionEvent>)
    requires BodyText(c1) == BodyText(c2) && BodyFailure(c1) == BodyFailure(c2)
    ensures StreamFrom(c1, "", parse) == StreamFrom(c2, "", parse)
  {
    StreamIsTextOutcome(c1, "", parse);
    StreamIsTextOutcome(c2, "", parse);
  }

  /** A body without a blank line sends nothing. */
  lemma NoBreakNoEvents(chunks: seq<Chunk>, parse: string -> Option<TranscriptionEvent>)
    requires FindBreak(BodyText(chunks)).None?
    ensures SseOutcome(chunks, parse).events == []
    ensures SseOutcome(chunks, parse).end == (match BodyFailure(chunks) case Some(e) => ReadFailed(e) case None => Finished)
  {
    assert "" + BodyText(chunks) == BodyText(chunks);
  }

  /** The JSON parser of the stream never yields a server error: that
      variant is skipped by deserialisation. */
  ghost predicate ParsesNoError(parse: string -> Option<TranscriptionEvent>)
  {
    forall d :: parse(d).Some? ==> !parse(d).value.Error?
  }

  lemma {:induction false} LinesNoError(lines: seq<string>, parse: string -> Option<TranscriptionEvent>)
    requires ParsesNoError(parse)
    ensures forall e :: e in ProcessLines(lines, parse).events ==> !e.Error?
  {
    if lines != [] {
      LinesNoError(lines[1..], parse);
    }
  }

  lemma {:induction false} EventsNoError(events: seq<string>, parse: string -> Option<TranscriptionEvent>)
    requires ParsesNoError(parse)
    ensures forall e :: e in ProcessEvents(events, parse).events ==> !e.Error?
  {
    if events != [] {
      LinesNoError(Lines(events[0]), parse);
      EventsNoError(events[1..], parse);
    }
  }

  /** With the stream's parser, `transcribe_stream` never sends an `Error`
      event: every event it sends came out of the parser. */
  lemma SseSendsNoError(chunks: seq<Chunk>, parse: string -> Option<TranscriptionEvent>)
    requires ParsesNoError(parse)
    ensures forall e :: e in SseOutcome(chunks, parse).events ==> !e.Error?
  {
    EventsNoError(SplitEvents("" + BodyText(chunks)).events, parse);
  }

  // ---------------------------------------------------------------------------
  // The loops

  /** `for line in event_str.lines()`: the events sent for one event, and
      whether it held the `[DONE]` marker. */
  method HandleEvent(eventText: string, parse: string -> Option<TranscriptionEvent>)
    returns (sent: seq<TranscriptionEvent>, done: bool)
    ensures Processed(sent, done) == ProcessLines(Lines(eventText), parse)
  {
    var lines := Lines(eventText);
    sent := [];
    var j := 0;
    while j < |lines|
      invariant 0 <= j <= |lines|
      invariant ProcessLines(lines, parse)
                == Processed(sent + ProcessLines(lines[j..], parse).events, ProcessLines(lines[j..], parse).done)
    {
      var data := StripData(lines[j]);
      ghost var before := sent;
      if data.Some? {
        if IsDone(data.value) {
          LineDone(lines, j, parse, sent);
          return sent, true;
        }
        var parsed := parse(data.value);
        if parsed.Some? {
          sent := sent + [parsed.value];
        }
      }
      LineStep(lines, j, parse, before, sent);
      j := j + 1;
    }
    assert lines[j..] == [];
    done := false;
  }

  /** A `[DONE]` line ends the event with what was sent before it. */
  lemma LineDone(lines: seq<string>, j: nat, parse: string -> Option<TranscriptionEvent>, sent: seq<TranscriptionEvent>)
    requires j < |lines| && StripData(lines[j]).Some? && IsDone(StripData(lines[j]).value)
    ensures Processed(sent + ProcessLines(lines[j..], parse).events, ProcessLines(lines[j..], parse).done)
            == Processed(sent, true)
  {
    assert lines[j..][0] == lines[j];
    assert sent + [] == sent;
  }

  /** Any other line sends its parsed payload, if any, and goes on. */
  lemma LineStep(lines: seq<string>, j: nat, parse: string -> Option<TranscriptionEvent>,
                 sent: seq<TranscriptionEvent>, after: seq<TranscriptionEvent>)
    requires j < |lines|
    requires StripData(lines[j]).None? ==> after == sent
    requires StripData(lines[j]).Some? ==>
               var d := StripData(lines[j]).value;
               !IsDone(d) && (parse(d).Some? ==> after == sent + [parse(d).value]) && (parse(d).None? ==> after == sent)
    ensures Processed(sent + ProcessLines(lines[j..], parse).events, ProcessLines(lines[j..], parse).done)
            == Processed(after + ProcessLines(lines[j + 1..], parse).events, ProcessLines(lines[j + 1..], parse).done)
  {
    assert lines[j..][0] == lines[j] && lines[j..][1..] == lines[j + 1..];
    var tail := ProcessLines(lines[j + 1..], parse);
    match StripData(lines[j]) {
      case None =>
      case Some(d) =>
        match parse(d) {
          case Some(e) => SeqAssoc(sent, [e], tail.events);
          case None => assert [] + tail.events == tail.events;
        }
    }
  }

  /** `while let Some(pos) = buffer.find("\n\n")`: handles every complete
      event of the buffer and keeps the rest. */
  method DrainBuffer(buffer0: string, parse: string -> Option<TranscriptionEvent>)
    returns (sent: seq<TranscriptionEvent>, done: bool, buffer: string)
    ensures Processed(sent, done) == ProcessEvents(SplitEvents(buffer0).events, parse)
    ensures !done ==> buffer == SplitEvents(buffer0).rest
  {
    sent := [];
    buffer := buffer0;
    while FindBreak(buffer).Some?
      invariant SplitEvents(buffer).rest == SplitEvents(buffer0).rest
      invariant ProcessEvents(SplitEvents(buffer0).events, parse)
                == Processed(sent + ProcessEvents(SplitEvents(buffer).events, parse).events,
                             ProcessEvents(SplitEvents(buffer).events, parse).done)
      decreases |buffer|
    {
      var pos := FindBreak(buffer).value;
      var eventText := buffer[..pos];
      var more, stop := HandleEvent(eventText, parse);
      DrainStep(buffer, pos, parse, sent, more, stop);
      buffer := buffer[pos + 2..];
      sent := sent + more;
      if stop {
        done := true;
        return;
      }
    }
    done := false;
  }

  /** One event of the buffer: its lines are processed and the buffer loses
      it. */
  lemma DrainStep(buffer: string, pos: nat, parse: string -> Option<TranscriptionEvent>,
                  sent: seq<TranscriptionEvent>, more: seq<TranscriptionEvent>, stop: bool)
    requires FindBreak(buffer) == Some(pos)
    requires Processed(more, stop) == ProcessLines(Lines(buffer[..pos]), parse)
    ensures SplitEvents(buffer[pos + 2..]).rest == SplitEvents(buffer).rest
    ensures var here := ProcessEvents(SplitEvents(buffer).events, parse);
            var next := ProcessEvents(SplitEvents(buffer[pos + 2..]).events, parse);
            Processed(sent + here.events, here.done)
            == if stop then Processed(sent + more, true)
               else Processed((sent + more) + next.events, next.done)
  {
    SplitUnfold(buffer, pos);
    var tail := SplitEvents(buffer[pos + 2..]);
    var evs := [buffer[..pos]] + tail.events;
    assert evs[0] == buffer[..pos] && evs[1..] == tail.events;
    SeqAssoc(sent, more, ProcessEvents(tail.events, parse).events);
  }

  /** `transcribe_stream` from the first body chunk on. */
  method TranscribeStream(chunks: seq<Chunk>, parse: string -> Option<TranscriptionEvent>)
    returns (sent: seq<TranscriptionEvent>, end: StreamEnd)
    ensures Outcome(sent, end) == SseOutcome(chunks, parse)
  {
    sent := [];
    var buffer := "";
    var i := 0;
    while i < |chunks|
      invariant 0 <= i <= |chunks|
      invariant StreamFrom(chunks, "", parse)
                == Outcome(sent + StreamFrom(chunks[i..], buffer, parse).events, StreamFrom(chunks[i..], buffer, parse).end)
    {
      match chunks[i] {
        case Failed(e) =>
          end := ReadFailed(e);
          StreamFailStep(chunks, i, buffer, e, parse, sent);
          StreamIsTextOutcome(chunks, "", parse);
          return;
        case Bytes(t) =>
          ghost var old_buffer := buffer;
          ghost var old_sent := sent;
          buffer := buffer + t;
          var more, stop, rest := DrainBuffer(buffer, parse);
          sent := sent + more;
          StreamStep(chunks, i, old_buffer, t, parse, old_sent, more, stop);
          if stop {
            end := DoneMarker;
            StreamIsTextOutcome(chunks, "", parse);
            return;
          }
          buffer := rest;
      }
      i := i + 1;
    }
    assert chunks[i..] == [];
    end := Finished;
    StreamIsTextOutcome(chunks, "", parse);
  }

  lemma StreamFailStep(chunks: seq<Chunk>, i: nat, buffer: string, e: string,
                       parse: string -> Option<TranscriptionEvent>, sent: seq<TranscriptionEvent>)
    requires i < |chunks| && chunks[i] == Failed(e)
    ensures Outcome(sent + StreamFrom(chunks[i..], buffer, parse).events, StreamFrom(chunks[i..], buffer, parse).end)
            == Outcome(sent, ReadFailed(e))
  {
    assert chunks[i..][0] == chunks[i];
    assert sent + [] == sent;
  }

  /** One chunk of the loop: its events are sent, and the rest of the stream
      is read with the new buffer unless `[DONE]` was seen. */
  lemma StreamStep(chunks: seq<Chunk>, i: nat, buffer: string, t: string,
                   parse: string -> Option<TranscriptionEvent>,
                   sent: seq<TranscriptionEvent>, more: seq<TranscriptionEvent>, stop: bool)
    requires i < |chunks| && chunks[i] == Bytes(t)
    requires Processed(more, stop) == ProcessEvents(SplitEvents(buffer + t).events, parse)
    ensures var here := StreamFrom(chunks[i..], buffer, parse);
            var next := StreamFrom(chunks[i + 1..], SplitEvents(buffer + t).rest, parse);
            Outcome(sent + here.events, here.end)
            == if stop then Outcome(sent + more, DoneMarker)
               else Outcome((sent + more) + next.events, next.end)
  {
    assert chunks[i..][0] == chunks[i] && chunks[i..][1..] == chunks[i + 1..];
    var next := StreamFrom(chunks[i + 1..], SplitEvents(buffer + t).rest, parse);
    SeqAssoc(sent, more, next.events);
  }

}
