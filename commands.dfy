/** Session orchestration (commands.rs): the single active-session slot, the
    audio loop of a running session, the live and batch updates of the store,
    the transcript handed to the assistant and the export file name. Tauri,
    tokio and the network are replaced by parameters that carry what each
    of them returned. */
module Commands {
  import opened Wrappers
  import opened Pcm
  import Db
  import Batch
  import Chat
  import Export
  import Realtime

  // ---------------------------------------------------------------------------
  // Messages

  const SESSION_BUSY := "Une session est deja en cours. Arretez-la d'abord."
  const API_KEY_MISSING := "Cle API Mistral non configuree. Allez dans Parametres."
  const NO_ACTIVE_SESSION := "Aucune session active"
  const NO_TRANSCRIPT := "Aucune transcription disponible pour cette session."

  function MismatchMessage(active: string, requested: string): string
  {
    "La session active (" + active + ") ne correspond pas a celle demandee (" + requested + ")"
  }

  /** `to_string` of the store's errors. */
  function DbErrorText(e: Db.DbError): string
  {
    match e
    case NotFound => "Query returned no rows"
    case UniqueViolation => "UNIQUE constraint failed: sessions.id"
  }

  /** The title a new session gets, from the formatted local clock. */
  function DefaultTitle(stamp: string): string
  {
    "Reunion " + stamp
  }

  /** The two capture set-ups; any mode other than "visio" records in person. */
  datatype CaptureMode = Visio | InPerson

  function CaptureModeOf(mode: string): CaptureMode
  {
    if mode == "visio" then Visio else InPerson
  }

  /** What the application emits to its window. */
  datatype UiEvent =
    | TranscriptionDelta(text: string)
    | TranscriptionSegment(row: Db.Segment)
    | SessionError(message: string)
    | SessionComplete(sessionId: string)

  // ---------------------------------------------------------------------------
  // The recorded audio

  /** The shared `Vec<i16>` a running session records into. */
  class SampleBuffer {
    var samples: seq<Int16>

    constructor ()
      ensures samples == []
    {
      samples := [];
    }

    /** `extend_from_slice`. */
    method Extend(chunk: seq<Int16>)
      modifies this
      ensures samples == old(samples) + chunk
    {
      samples := samples + chunk;
    }
  }

  /** `ActiveSession`: the id, the buffer shared with the audio loop and the
      capture rate. The capturer and the stop channel are not modelled as
      values: a stop signal is recorded by `App.stopSignals`. */
  datatype ActiveSession = ActiveSession(id: string, audio: SampleBuffer, sampleRate: nat)

  /** What `stop_session` takes out of the slot before saving the recording. */
  datatype Stopped = Stopped(samples: seq<Int16>, sampleRate: nat)

  // ---------------------------------------------------------------------------
  // The audio loop

  /** What one turn of the audio loop observes: the stop flag set, or else the
      result of `try_recv` on the capture channel. */
  datatype Poll = StopRequested | Got(chunk: seq<Int16>) | Empty | Disconnected

  predicate EndsLoop(p: Poll)
  {
    p.StopRequested? || p.Disconnected?
  }

  /** The samples recorded from turn `i` on. */
  function CapturedFrom(polls: seq<Poll>, i: nat): seq<Int16>
    decreases |polls| - i
  {
    if i >= |polls| then []
    else match polls[i]
      case StopRequested => []
      case Disconnected => []
      case Empty => CapturedFrom(polls, i + 1)
      case Got(c) => (if c == [] then [] else c) + CapturedFrom(polls, i + 1)
  }

  /** The messages handed to the sender task from turn `i` on: every non-empty
      chunk, then `End` once the loop has ended. */
  function ForwardedFrom(polls: seq<Poll>, i: nat): seq<Realtime.AudioMsg>
    decreases |polls| - i
  {
    if i >= |polls| then []
    else match polls[i]
      case StopRequested => [Realtime.End]
      case Disconnected => [Realtime.End]
      case Empty => ForwardedFrom(polls, i + 1)
      case Got(c) => (if c == [] then [] else [Realtime.Chunk(c)]) + ForwardedFrom(polls, i + 1)
  }

  /** The samples a sequence of audio messages carries, in order. */
  function Payload(msgs: seq<Realtime.AudioMsg>): seq<Int16>
  {
    if msgs == [] then []
    else (match msgs[0] case Chunk(s) => s case End => []) + Payload(msgs[1..])
  }

  /** The main audio loop of a running session: record every non-empty chunk
      into `audio` and forward it, sleep on an empty channel, and stop on the
      stop flag or a closed channel, then send `End`. A trace that runs out
      without a stop describes a loop still running, so no `End` is sent. */
  method AudioLoop(polls: seq<Poll>, audio: SampleBuffer) returns (forwarded: seq<Realtime.AudioMsg>)
    modifies audio
    ensures audio.samples == old(audio.samples) + CapturedFrom(polls, 0)
    ensures forwarded == ForwardedFrom(polls, 0)
  {
    forwarded := [];
    var i := 0;
    var running := true;
    while running && i < |polls|
      invariant 0 <= i <= |polls|
      invariant running ==> audio.samples + CapturedFrom(polls, i) == old(audio.samples) + CapturedFrom(polls, 0)
      invariant running ==> forwarded + ForwardedFrom(polls, i) == ForwardedFrom(polls, 0)
      invariant !running ==> audio.samples == old(audio.samples) + CapturedFrom(polls, 0)
      invariant !running ==> forwarded == ForwardedFrom(polls, 0)
      decreases |polls| - i, running
    {
      var p := polls[i];
      if EndsLoop(p) {
        forwarded := forwarded + [Realtime.End];
        running := false;
      } else if p.Got? && p.chunk != [] {
        SeqAssoc(audio.samples, p.chunk, CapturedFrom(polls, i + 1));
        SeqAssoc(forwarded, [Realtime.Chunk(p.chunk)], ForwardedFrom(polls, i + 1));
        audio.Extend(p.chunk);
        forwarded := forwarded + [Realtime.Chunk(p.chunk)];
        i := i + 1;
      } else {
        i := i + 1;
      }
    }
  }

  lemma PayloadCons(m: Realtime.AudioMsg, rest: seq<Realtime.AudioMsg>)
    ensures Payload([m] + rest) == (match m case Chunk(s) => s case End => []) + Payload(rest)
  {
    assert ([m] + rest)[1..] == rest;
  }

  /** What is forwarded carries exactly what is recorded: the recording is the
      in-order concatenation of the forwarded chunks. */
  lemma {:induction false} ForwardedCarriesCaptured(polls: seq<Poll>, i: nat)
    ensures Payload(ForwardedFrom(polls, i)) == CapturedFrom(polls, i)
    decreases |polls| - i
  {
    if i < |polls| {
      match polls[i]
      case StopRequested =>
        PayloadCons(Realtime.End, []);
      case Disconnected =>
        PayloadCons(Realtime.End, []);
      case Empty =>
        ForwardedCarriesCaptured(polls, i + 1);
      case Got(c) =>
        ForwardedCarriesCaptured(polls, i + 1);
        if c != [] {
          PayloadCons(Realtime.Chunk(c), ForwardedFrom(polls, i + 1));
        } else {
          assert ForwardedFrom(polls, i) == ForwardedFrom(polls, i + 1);
          assert CapturedFrom(polls, i) == CapturedFrom(polls, i + 1);
        }
    }
  }

  /** Empty chunks are skipped: no forwarded chunk is empty. */
  lemma {:induction false} NoEmptyChunk(polls: seq<Poll>, i: nat)
    ensures forall m :: m in ForwardedFrom(polls, i) && m.Chunk? ==> m.samples != []
    decreases |polls| - i
  {
    if i < |polls| && (polls[i].Empty? || polls[i].Got?) {
      NoEmptyChunk(polls, i + 1);
    }
  }

  /** `End` is sent iff the loop ends, and then only once, as the last message. */
  lemma {:induction false} EndOnceLast(polls: seq<Poll>, i: nat)
    ensures var f := ForwardedFrom(polls, i);
            (Realtime.End in f <==> exists j :: i <= j < |polls| && EndsLoop(polls[j]))
            && forall k :: 0 <= k < |f| && f[k].End? ==> k == |f| - 1
    decreases |polls| - i
  {
    if i < |polls| && (polls[i].Empty? || polls[i].Got?) {
      EndOnceLast(polls, i + 1);
      var f := ForwardedFrom(polls, i);
      var g := ForwardedFrom(polls, i + 1);
      if (exists j :: i + 1 <= j < |polls| && EndsLoop(polls[j])) {
        var j :| i + 1 <= j < |polls| && EndsLoop(polls[j]);
        assert i <= j < |polls|;
      }
      if polls[i].Got? && polls[i].chunk != [] {
        assert f == [Realtime.Chunk(polls[i].chunk)] + g;
        assert forall k :: 1 <= k < |f| ==> f[k] == g[k - 1];
        assert Realtime.End in f <==> Realtime.End in g;
      }
    }
  }

  /** Once the loop has ended, later turns change nothing. */
  lemma {:induction false} NothingAfterStop(polls: seq<Poll>, more: seq<Poll>, i: nat, j: nat)
    requires i <= j < |polls| && EndsLoop(polls[j])
    ensures CapturedFrom(polls + more, i) == CapturedFrom(polls, i)
    ensures ForwardedFrom(polls + more, i) == ForwardedFrom(polls, i)
    decreases j - i
  {
    assert (polls + more)[i] == polls[i];
    if i < j && !EndsLoop(polls[i]) {
      NothingAfterStop(polls, more, i + 1, j);
    }
  }

  // ---------------------------------------------------------------------------
  // Rows of the store written by a session

  /** The live rows the event task stores from the chunked stream of events,
      numbered from `nextId`: one per `Segment` event, none after `Error`. */
  function LiveRows(events: seq<Realtime.TranscriptionEvent>, sid: string, nextId: int): seq<Db.Segment>
    decreases |events|
  {
    if events == [] then []
    else match events[0]
      case Segment(text, start, end) =>
        [Db.Segment(nextId, sid, text, start, end, None, false)] + LiveRows(events[1..], sid, nextId + 1)
      case Error(_) => []
      case _ => LiveRows(events[1..], sid, nextId)
  }

  /** What the event task emits for the same events. */
  function LiveUi(events: seq<Realtime.TranscriptionEvent>, sid: string, nextId: int): seq<UiEvent>
    decreases |events|
  {
    if events == [] then []
    else match events[0]
      case TextDelta(text) => [TranscriptionDelta(text)] + LiveUi(events[1..], sid, nextId)
      case Segment(text, start, end) =>
        [TranscriptionSegment(Db.Segment(nextId, sid, text, start, end, None, false))]
        + LiveUi(events[1..], sid, nextId + 1)
      case Error(message) => [SessionError(message)]
      case _ => LiveUi(events[1..], sid, nextId)
  }

  /** The rows announced in `transcription-segment` events, in order. */
  function Announced(ui: seq<UiEvent>): seq<Db.Segment>
  {
    if ui == [] then []
    else (if ui[0].TranscriptionSegment? then [ui[0].row] else []) + Announced(ui[1..])
  }

  lemma AnnouncedCons(e: UiEvent, rest: seq<UiEvent>)
    ensures Announced([e] + rest) == (if e.TranscriptionSegment? then [e.row] else []) + Announced(rest)
  {
    assert ([e] + rest)[1..] == rest;
  }

  /** Every `transcription-segment` event announces the row just stored, and
      every stored row is announced. */
  lemma {:induction false} AnnouncedIsStored(events: seq<Realtime.TranscriptionEvent>, sid: string, nextId: int)
    ensures Announced(LiveUi(events, sid, nextId)) == LiveRows(events, sid, nextId)
    decreases |events|
  {
    if events != [] {
      var rest := events[1..];
      match events[0]
      case TextDelta(text) =>
        AnnouncedIsStored(rest, sid, nextId);
        AnnouncedCons(TranscriptionDelta(text), LiveUi(rest, sid, nextId));
      case Segment(text, start, end) =>
        AnnouncedIsStored(rest, sid, nextId + 1);
        AnnouncedCons(TranscriptionSegment(Db.Segment(nextId, sid, text, start, end, None, false)),
                      LiveUi(rest, sid, nextId + 1));
      case Error(message) =>
        AnnouncedCons(SessionError(message), []);
      case Language(_) =>
        AnnouncedIsStored(rest, sid, nextId);
      case Done(_) =>
        AnnouncedIsStored(rest, sid, nextId);
    }
  }

  /** What the event task has stored and shown after the first `i` events,
      when none of them was an error: the rest of the events complete it. */
  predicate LiveProgress(events: seq<Realtime.TranscriptionEvent>, i: nat, sid: string, nextId: int,
                         segs: seq<Db.Segment>, ui: seq<UiEvent>, segs0: seq<Db.Segment>, nextId0: int)
    requires i <= |events|
  {
    segs + LiveRows(events[i..], sid, nextId) == segs0 + LiveRows(events, sid, nextId0)
    && ui + LiveUi(events[i..], sid, nextId) == LiveUi(events, sid, nextId0)
  }

  /** The rows and events of one event other than an error. */
  function EventRows(e: Realtime.TranscriptionEvent, sid: string, nextId: int): seq<Db.Segment>
  {
    match e
    case Segment(text, start, end) => [Db.Segment(nextId, sid, text, start, end, None, false)]
    case _ => []
  }

  function EventUi(e: Realtime.TranscriptionEvent, sid: string, nextId: int): seq<UiEvent>
  {
    match e
    case TextDelta(text) => [TranscriptionDelta(text)]
    case Segment(text, start, end) => [TranscriptionSegment(Db.Segment(nextId, sid, text, start, end, None, false))]
    case _ => []
  }

  lemma LiveStep(events: seq<Realtime.TranscriptionEvent>, i: nat, sid: string, nextId: int,
                 segs: seq<Db.Segment>, ui: seq<UiEvent>, segs0: seq<Db.Segment>, nextId0: int,
                 j: nat, nextId': int, segs': seq<Db.Segment>, ui': seq<UiEvent>)
    requires i < |events| && !events[i].Error? && j == i + 1
    requires LiveProgress(events, i, sid, nextId, segs, ui, segs0, nextId0)
    requires nextId' == nextId + |EventRows(events[i], sid, nextId)|
    requires segs' == segs + EventRows(events[i], sid, nextId)
    requires ui' == ui + EventUi(events[i], sid, nextId)
    ensures LiveProgress(events, j, sid, nextId', segs', ui', segs0, nextId0)
  {
    assert events[i..][0] == events[i] && events[i..][1..] == events[i + 1..];
    var n := nextId + |EventRows(events[i], sid, nextId)|;
    SeqAssoc(segs, EventRows(events[i], sid, nextId), LiveRows(events[i + 1..], sid, n));
    SeqAssoc(ui, EventUi(events[i], sid, nextId), LiveUi(events[i + 1..], sid, n));
  }

  lemma LiveStop(events: seq<Realtime.TranscriptionEvent>, i: nat, sid: string, nextId: int,
                 segs: seq<Db.Segment>, ui: seq<UiEvent>, segs0: seq<Db.Segment>, nextId0: int)
    requires i < |events| && events[i].Error?
    requires LiveProgress(events, i, sid, nextId, segs, ui, segs0, nextId0)
    ensures segs == segs0 + LiveRows(events, sid, nextId0)
    ensures ui + [SessionError(events[i].message)] == LiveUi(events, sid, nextId0)
  {
    assert events[i..][0] == events[i];
    assert segs + [] == segs;
  }

  /** A live row as the event task stores it. */
  predicate LiveRow(row: Db.Segment, sid: string, id: int)
  {
    row.sessionId == sid && row.speaker.None? && !row.isDiarized && row.id == id
  }

  /** Live rows belong to the session, carry no speaker, are not diarized and
      take consecutive ids. */
  lemma {:induction false} LiveRowsShape(events: seq<Realtime.TranscriptionEvent>, sid: string, nextId: int)
    ensures forall k :: 0 <= k < |LiveRows(events, sid, nextId)| ==>
              LiveRow(LiveRows(events, sid, nextId)[k], sid, nextId + k)
    decreases |events|
  {
    if events != [] {
      var rest := events[1..];
      var r := LiveRows(events, sid, nextId);
      match events[0]
      case Segment(text, start, end) =>
        LiveRowsShape(rest, sid, nextId + 1);
        var t := LiveRows(rest, sid, nextId + 1);
        assert r == [Db.Segment(nextId, sid, text, start, end, None, false)] + t;
        forall k | 1 <= k < |r| ensures LiveRow(r[k], sid, nextId + k) {
          assert r[k] == t[k - 1];
        }
      case Error(_) =>
      case TextDelta(_) =>
        LiveRowsShape(rest, sid, nextId);
        assert r == LiveRows(rest, sid, nextId);
      case Language(_) =>
        LiveRowsShape(rest, sid, nextId);
        assert r == LiveRows(rest, sid, nextId);
      case Done(_) =>
        LiveRowsShape(rest, sid, nextId);
        assert r == LiveRows(rest, sid, nextId);
    }
  }

  /** The diarized rows the batch result is stored as, numbered from `firstId`,
      in response order. */
  function DiarizedRows(sid: string, segs: seq<Batch.TranscriptionSegment>, firstId: int): (r: seq<Db.Segment>)
    ensures |r| == |segs|
  {
    seq(|segs|, k requires 0 <= k < |segs| =>
      Db.Segment(firstId + k, sid, segs[k].text, segs[k].start, segs[k].end, segs[k].speakerId, true))
  }

  lemma DiarizedSnoc(sid: string, segs: seq<Batch.TranscriptionSegment>, firstId: int, k: nat)
    requires k < |segs|
    ensures DiarizedRows(sid, segs[..k + 1], firstId)
            == DiarizedRows(sid, segs[..k], firstId)
               + [Db.Segment(firstId + k, sid, segs[k].text, segs[k].start, segs[k].end, segs[k].speakerId, true)]
  {
  }

  /** The batch success path: the session's segments become its diarized rows
      as they were, followed by one new diarized row per response segment in
      response order; the live rows are gone, and other sessions keep theirs. */
  lemma BatchReplacesLive(segs: seq<Db.Segment>, sid: string, resp: seq<Batch.TranscriptionSegment>,
                          firstId: int, other: string)
    ensures var after := Db.Cleared(segs, sid, Db.LiveRows) + DiarizedRows(sid, resp, firstId);
            Db.RowsOf(after, sid)
              == Db.Filter(Db.RowsOf(segs, sid), (s: Db.Segment) => s.isDiarized) + DiarizedRows(sid, resp, firstId)
            && (other != sid ==> Db.RowsOf(after, other) == Db.RowsOf(segs, other))
  {
    var cleared := Db.Cleared(segs, sid, Db.LiveRows);
    var added := DiarizedRows(sid, resp, firstId);
    Db.RowsOfAppend(cleared, added, sid);
    Db.ClearedLive(segs, sid);
    Db.RowsOfOwn(added, sid, other);
    if other != sid {
      Db.RowsOfAppend(cleared, added, other);
      Db.ClearedOther(segs, sid, Db.LiveRows, other);
    }
  }

  // ---------------------------------------------------------------------------
  // Transcript text

  /** `format!("{}: {}", speaker, text)`, or the bare text without a speaker. */
  function SpeakerLine(speaker: Option<string>, text: string): string
  {
    match speaker
    case Some(sp) => sp + ": " + text
    case None => text
  }

  /** `join("\n")`. */
  function JoinLines(lines: seq<string>): string
  {
    if |lines| == 0 then ""
    else if |lines| == 1 then lines[0]
    else lines[0] + "\n" + JoinLines(lines[1..])
  }

  /** `split('\n')`: the pieces between newlines, at least one. */
  function SplitLines(s: string): (r: seq<string>)
    ensures |r| >= 1
  {
    if s == [] then [""]
    else
      var rest := SplitLines(s[1..]);
      if s[0] == '\n' then [""] + rest else [[s[0]] + rest[0]] + rest[1..]
  }

  /** Text without a newline joins the first piece of what follows it. */
  lemma {:induction false} SplitPrefix(a: string, rest: string)
    requires '\n' !in a
    ensures SplitLines(a + rest) == [a + SplitLines(rest)[0]] + SplitLines(rest)[1..]
  {
    if a != [] {
      assert (a + rest)[0] == a[0];
      assert (a + rest)[1..] == a[1..] + rest;
      SplitPrefix(a[1..], rest);
      assert [a[0]] + (a[1..] + SplitLines(rest)[0]) == a + SplitLines(rest)[0];
    } else {
      var r := SplitLines(rest);
      assert a + rest == rest;
      assert a + r[0] == r[0];
      assert [r[0]] + r[1..] == r;
    }
  }

  /** Splitting a joined list of newline-free lines gives the lines back. */
  lemma {:induction false} SplitJoin(lines: seq<string>)
    requires |lines| >= 1
    requires forall k :: 0 <= k < |lines| ==> '\n' !in lines[k]
    ensures SplitLines(JoinLines(lines)) == lines
  {
    if |lines| == 1 {
      SplitPrefix(lines[0], "");
      assert lines[0] + "" == lines[0];
    } else {
      var tail := JoinLines(lines[1..]);
      SplitJoin(lines[1..]);
      assert lines[0] + "\n" + tail == lines[0] + ("\n" + tail);
      SplitPrefix(lines[0], "\n" + tail);
      assert ("\n" + tail)[1..] == tail;
      var pieces := SplitLines("\n" + tail);
      assert pieces == [""] + lines[1..];
      assert pieces[0] == "" && pieces[1..] == lines[1..];
      assert lines[0] + pieces[0] == lines[0];
      assert [lines[0]] + lines[1..] == lines;
    }
  }

  /** Joining the pieces of a text gives the text back. */
  lemma {:induction false} JoinSplit(s: string)
    ensures JoinLines(SplitLines(s)) == s
  {
    if s != [] {
      var rest := SplitLines(s[1..]);
      JoinSplit(s[1..]);
      if s[0] == '\n' {
        assert JoinLines([""] + rest) == "" + "\n" + JoinLines(rest) by {
          assert ([""] + rest)[1..] == rest;
        }
        assert "" + "\n" + s[1..] == s;
      } else {
        var r := [[s[0]] + rest[0]] + rest[1..];
        if |rest| == 1 {
          assert r == [[s[0]] + rest[0]];
          assert [s[0]] + s[1..] == s;
        } else {
          assert rest == [rest[0]] + rest[1..];
          assert JoinLines(rest) == rest[0] + "\n" + JoinLines(rest[1..]);
          assert r[1..] == rest[1..];
          assert JoinLines(r) == [s[0]] + rest[0] + "\n" + JoinLines(rest[1..]);
          assert [s[0]] + s[1..] == s;
        }
      }
    }
  }

  /** The transcript lines of the batch response. */
  function BatchLines(segs: seq<Batch.TranscriptionSegment>): (r: seq<string>)
    ensures |r| == |segs|
  {
    seq(|segs|, k requires 0 <= k < |segs| => SpeakerLine(segs[k].speakerId, segs[k].text))
  }

  /** The transcript lines of stored segments. */
  function StoredLines(segs: seq<Db.Segment>): (r: seq<string>)
    ensures |r| == |segs|
  {
    seq(|segs|, k requires 0 <= k < |segs| => SpeakerLine(segs[k].speaker, segs[k].text))
  }

  predicate NoNewline(speaker: Option<string>, text: string)
  {
    '\n' !in text && (speaker.Some? ==> '\n' !in speaker.value)
  }

  lemma SpeakerLineNoNewline(speaker: Option<string>, text: string)
    requires NoNewline(speaker, text)
    ensures '\n' !in SpeakerLine(speaker, text)
  {
  }

  /** The batch transcript has one line per segment, in response order, each
      `speaker: text` or the bare text. */
  lemma BatchTranscriptLines(segs: seq<Batch.TranscriptionSegment>)
    requires segs != []
    requires forall k :: 0 <= k < |segs| ==> NoNewline(segs[k].speakerId, segs[k].text)
    ensures var lines := SplitLines(JoinLines(BatchLines(segs)));
            |lines| == |segs|
            && forall k :: 0 <= k < |segs| ==> lines[k] == SpeakerLine(segs[k].speakerId, segs[k].text)
  {
    var ls := BatchLines(segs);
    forall k | 0 <= k < |ls| ensures '\n' !in ls[k] {
      SpeakerLineNoNewline(segs[k].speakerId, segs[k].text);
    }
    SplitJoin(ls);
  }

  /** Non-empty live text goes after the transcript, on a line of its own
      when the transcript is not empty. */
  function WithLiveText(transcript: string, live: Option<string>): string
  {
    match live
    case Some(lt) =>
      if lt == [] then transcript
      else if transcript == [] then lt
      else transcript + "\n" + lt
    case None => transcript
  }

  /** The text `search_llm` sends to the assistant, or its error when there is
      none. */
  function LlmTranscript(segs: seq<Db.Segment>, live: Option<string>): (r: Result<string, string>)
    ensures r.Err? <==> JoinLines(StoredLines(segs)) == [] && (live.None? || live.value == [])
    ensures r.Err? ==> r.error == NO_TRANSCRIPT
    ensures r.Ok? ==> r.value != []
  {
    var t := WithLiveText(JoinLines(StoredLines(segs)), live);
    if t == [] then Err(NO_TRANSCRIPT) else Ok(t)
  }

  /** The text sent to the assistant has one line per stored segment, in
      the order given, each `speaker: text` or the bare text, followed by the
      lines of the live text when there is some. */
  lemma StoredTranscriptLines(segs: seq<Db.Segment>, live: Option<string>)
    requires segs != []
    requires forall k :: 0 <= k < |segs| ==> NoNewline(segs[k].speaker, segs[k].text)
    requires JoinLines(StoredLines(segs)) != []
    ensures LlmTranscript(segs, live).Ok?
    ensures var lines := SplitLines(LlmTranscript(segs, live).value);
            var extra := if live.Some? && live.value != [] then SplitLines(live.value) else [];
            |lines| == |segs| + |extra|
            && (forall k :: 0 <= k < |segs| ==> lines[k] == SpeakerLine(segs[k].speaker, segs[k].text))
            && lines[|segs|..] == extra
  {
    var ls := StoredLines(segs);
    forall k | 0 <= k < |ls| ensures '\n' !in ls[k] {
      SpeakerLineNoNewline(segs[k].speaker, segs[k].text);
    }
    SplitJoin(ls);
    var t := JoinLines(ls);
    if live.Some? && live.value != [] {
      LiveTextLines(t, live.value);
    }
  }

  lemma {:induction false} SplitConcat(a: string, b: string)
    ensures SplitLines(a + "\n" + b) == SplitLines(a) + SplitLines(b)
  {
    if a == [] {
      assert a + "\n" + b == "\n" + b;
      assert ("\n" + b)[1..] == b;
    } else {
      assert (a + "\n" + b)[0] == a[0];
      assert (a + "\n" + b)[1..] == a[1..] + "\n" + b;
      SplitConcat(a[1..], b);
    }
  }

  /** Appending live text keeps every transcript line and adds the live
      text's own lines after them. */
  lemma LiveTextLines(transcript: string, lt: string)
    requires lt != []
    ensures transcript != [] ==> SplitLines(WithLiveText(transcript, Some(lt))) == SplitLines(transcript) + SplitLines(lt)
    ensures transcript == [] ==> WithLiveText(transcript, Some(lt)) == lt
  {
    if transcript != [] {
      SplitConcat(transcript, lt);
    }
  }

  // ---------------------------------------------------------------------------
  // Export file names

  /** ASCII letters and digits. */
  predicate AsciiAlphanumeric(c: char)
  {
    ('a' <= c <= 'z') || ('A' <= c <= 'Z') || ('0' <= c <= '9')
  }

  /** What the model knows of `char::is_alphanumeric`, which it takes as the
      parameter `isAlnum`: on ASCII it accepts exactly the letters and
      digits. Beyond ASCII it is left open (Unicode's Alphabetic and Numeric
      properties). */
  ghost predicate AlphanumericOnAscii(isAlnum: char -> bool)
  {
    forall c :: c as int < 128 ==> (isAlnum(c) <==> AsciiAlphanumeric(c))
  }

  predicate SafeChar(c: char, isAlnum: char -> bool)
  {
    isAlnum(c) || c == '-' || c == '_' || c == ' '
  }

  /** The title with every unsafe character replaced by '_'. */
  function SafeTitle(title: string, isAlnum: char -> bool): (r: string)
  {
    seq(|title|, i requires 0 <= i < |title| => if SafeChar(title[i], isAlnum) then title[i] else '_')
  }

  /** The sanitised title keeps its length and every safe character in place,
      replaces the others by '_', and holds no path separator or dot. */
  lemma SafeTitleShape(title: string, isAlnum: char -> bool)
    requires AlphanumericOnAscii(isAlnum)
    ensures |SafeTitle(title, isAlnum)| == |title|
    ensures forall i :: 0 <= i < |title| ==>
              (SafeChar(title[i], isAlnum) ==> SafeTitle(title, isAlnum)[i] == title[i])
              && (!SafeChar(title[i], isAlnum) ==> SafeTitle(title, isAlnum)[i] == '_')
    ensures forall c :: c in SafeTitle(title, isAlnum) ==> SafeChar(c, isAlnum)
    ensures '/' !in SafeTitle(title, isAlnum) && '\\' !in SafeTitle(title, isAlnum)
            && '.' !in SafeTitle(title, isAlnum)
  {
    assert !isAlnum('/') && !isAlnum('\\') && !isAlnum('.');
  }

  /** Sanitising is idempotent. */
  lemma SafeTitleIdempotent(title: string, isAlnum: char -> bool)
    ensures SafeTitle(SafeTitle(title, isAlnum), isAlnum) == SafeTitle(title, isAlnum)
  {
  }

  /** `split('-').next()`: the id up to its first '-'. The `"export"` fallback
      of the source is never taken, as `split` yields at least one piece. */
  function IdPrefix(id: string): (r: string)
    ensures '-' !in r
    ensures |r| <= |id| && r == id[..|r|]
    ensures |r| < |id| ==> id[|r|] == '-'
  {
    if id == [] || id[0] == '-' then [] else [id[0]] + IdPrefix(id[1..])
  }

  function FileName(title: string, sessionId: string, ext: string, isAlnum: char -> bool): string
  {
    SafeTitle(title, isAlnum) + "_" + IdPrefix(sessionId) + ext
  }

  /** A file name built from any title holds no path separator as long as the
      session id holds none. */
  lemma FileNameNoSeparator(title: string, sessionId: string, ext: string, isAlnum: char -> bool)
    requires AlphanumericOnAscii(isAlnum)
    requires '/' !in sessionId && '/' !in ext
    ensures '/' !in FileName(title, sessionId, ext, isAlnum)
  {
    SafeTitleShape(title, isAlnum);
    var p := IdPrefix(sessionId);
    assert forall c :: c in p ==> c in sessionId;
  }

  /** The export directory: the `export_dir` setting when it is set and not
      empty, otherwise the default directory. */
  function ExportDir(setting: Option<string>, defaultDir: string): (r: string)
    ensures setting.Some? && setting.value != [] ==> r == setting.value
    ensures (setting.None? || setting.value == []) ==> r == defaultDir
  {
    match setting
    case Some(dir) => if dir != [] then dir else defaultDir
    case None => defaultDir
  }

  /** Where `export_session` writes, and for Markdown what it writes. */
  datatype ExportFile = ExportFile(dir: string, name: string, markdown: Option<string>)

  /** The settings key of the cached API key. */
  const API_KEY_SETTING: string := "api_key"

  function UnsupportedFormat(format: string): string
  {
    "Export " + format + " pas encore supporte"
  }

  /** The stored summary as the export reads it: absent or unparseable JSON
      gives no summary. */
  function StoredSummary(s: Db.Session, parse: string -> Option<Chat.Summary>): Option<Chat.Summary>
  {
    match s.summaryJson
    case Some(json) => parse(json)
    case None => None
  }

  // ---------------------------------------------------------------------------
  // The application state

  /** The state commands use: the active-session slot, the store and the
      cached API key, plus the log of stop signals sent. */
  class App {
    var active: Option<ActiveSession>
    var db: Db.Database
    var apiKey: string
    /** The ids of the sessions whose stop signal was sent, in order. */
    var stopSignals: seq<string>

    predicate Valid()
      reads this, db
    {
      db.Valid()
    }

    constructor (store: Db.Database, key: string)
      requires store.Valid()
      ensures Valid()
      ensures db == store && active == None && apiKey == key && stopSignals == []
    {
      db := store;
      active := None;
      apiKey := key;
      stopSignals := [];
    }

    /** `start_session`, with the generated id, the clock readings and the
        capture start-up passed in: `startCapture` is given the capture mode
        and the `input_device` setting and returns the sample rate or an
        error. The slot is checked first; the row is created before the API
        key is checked and is kept when a later step fails. */
    method StartSession(mode: string, id: string, stamp: string, createdAt: string,
                        startCapture: (CaptureMode, Option<string>) -> Result<nat, string>)
      returns (r: Result<string, string>)
      requires Valid()
      modifies this, db
      ensures Valid() && db == old(db) && apiKey == old(apiKey) && stopSignals == old(stopSignals)
      ensures db.segments == old(db.segments) && db.lastSegmentId == old(db.lastSegmentId)
      ensures db.fts == old(db.fts) && db.settings == old(db.settings)
      ensures old(active).Some? ==> r == Err(SESSION_BUSY) && active == old(active) && db.sessions == old(db.sessions)
      ensures old(active).None? && old(Db.FindSession(db.sessions, id)).Some? ==>
                r == Err(DbErrorText(Db.UniqueViolation)) && active == None && db.sessions == old(db.sessions)
      ensures old(active).None? && old(Db.FindSession(db.sessions, id)).None? ==>
                db.sessions == old(db.sessions) + [Db.NewSession(id, DefaultTitle(stamp), mode, createdAt)]
      ensures old(active).None? && old(Db.FindSession(db.sessions, id)).None? && apiKey == [] ==>
                r == Err(API_KEY_MISSING) && active == None
      ensures old(active).None? && old(Db.FindSession(db.sessions, id)).None? && apiKey != [] ==>
                var started := startCapture(CaptureModeOf(mode), db.GetSetting("input_device"));
                (started.Err? ==> r == Err(started.error) && active == None)
                && (started.Ok? ==> r == Ok(id) && active.Some? && active.value.id == id
                                    && active.value.sampleRate == started.value
                                    && fresh(active.value.audio) && active.value.audio.samples == [])
    {
      if active.Some? {
        return Err(SESSION_BUSY);
      }
      var created := db.CreateSession(id, DefaultTitle(stamp), mode, createdAt);
      if created.Err? {
        return Err(DbErrorText(created.error));
      }
      if apiKey == [] {
        return Err(API_KEY_MISSING);
      }
      var device := db.GetSetting("input_device");
      var started := startCapture(CaptureModeOf(mode), device);
      if started.Err? {
        return Err(started.error);
      }
      var audio := new SampleBuffer();
      active := Some(ActiveSession(id, audio, started.value));
      r := Ok(id);
    }

    /** The slot part of `stop_session`: an empty slot and another session's
        id are errors, and in the second case the session is put back; the
        matching session is taken out, signalled to stop, and its recording
        handed on. */
    method StopSession(sessionId: string) returns (r: Result<Stopped, string>)
      modifies this
      ensures db == old(db) && apiKey == old(apiKey)
      ensures old(active).None? ==> r == Err(NO_ACTIVE_SESSION) && active == None && stopSignals == old(stopSignals)
      ensures old(active).Some? && old(active).value.id != sessionId ==>
                r == Err(MismatchMessage(old(active).value.id, sessionId))
                && active == old(active) && stopSignals == old(stopSignals)
      ensures old(active).Some? && old(active).value.id == sessionId ==>
                r == Ok(Stopped(old(active.value.audio.samples), old(active).value.sampleRate))
                && active == None && stopSignals == old(stopSignals) + [sessionId]
    {
      var taken := active;
      active := None;
      if taken.None? {
        return Err(NO_ACTIVE_SESSION);
      }
      var session := taken.value;
      if session.id != sessionId {
        active := Some(session);
        return Err(MismatchMessage(session.id, sessionId));
      }
      stopSignals := stopSignals + [sessionId];
      r := Ok(Stopped(session.audio.samples, session.sampleRate));
    }

    /** The rest of `stop_session` up to the batch task: a failed WAV write
        (`wavError`) aborts with its message and leaves the store alone;
        otherwise the audio path and the duration are recorded. */
    method SaveRecording(sessionId: string, audioPath: string, duration: real, wavError: Option<string>)
      returns (r: Result<(), string>)
      requires Valid()
      modifies db
      ensures Valid()
      ensures db.segments == old(db.segments) && db.lastSegmentId == old(db.lastSegmentId)
      ensures db.fts == old(db.fts) && db.settings == old(db.settings)
      ensures wavError.Some? ==> r == Err("Erreur sauvegarde audio: " + wavError.value) && db.sessions == old(db.sessions)
      ensures wavError.None? ==>
                r == Ok(())
                && db.sessions == Db.UpdateSessions(Db.UpdateSessions(old(db.sessions), sessionId, Db.AudioPath(audioPath)),
                                                    sessionId, Db.Duration(duration))
    {
      if wavError.Some? {
        return Err("Erreur sauvegarde audio: " + wavError.value);
      }
      db.UpdateSessionAudioPath(sessionId, audioPath);
      db.UpdateSessionDuration(sessionId, duration);
      r := Ok(());
    }

    /** The event task of a running session: deltas are shown, every segment
        is stored as a live row and announced, and an error is shown and ends
        the task; other events are ignored. */
    method StoreLiveEvents(sessionId: string, events: seq<Realtime.TranscriptionEvent>) returns (ui: seq<UiEvent>)
      requires Valid()
      modifies db
      ensures Valid()
      ensures db.segments == old(db.segments) + LiveRows(events, sessionId, old(db.lastSegmentId) + 1)
      ensures ui == LiveUi(events, sessionId, old(db.lastSegmentId) + 1)
      ensures db.sessions == old(db.sessions) && db.settings == old(db.settings)
    {
      ui := [];
      var i := 0;
      var stopped := false;
      assert events[0..] == events;
      while i < |events| && !stopped
        invariant 0 <= i <= |events|
        invariant db.Valid()
        invariant db.sessions == old(db.sessions) && db.settings == old(db.settings)
        invariant !stopped ==> LiveProgress(events, i, sessionId, db.lastSegmentId + 1, db.segments, ui,
                                            old(db.segments), old(db.lastSegmentId) + 1)
        invariant stopped ==> db.segments == old(db.segments) + LiveRows(events, sessionId, old(db.lastSegmentId) + 1)
        invariant stopped ==> ui == LiveUi(events, sessionId, old(db.lastSegmentId) + 1)
        decreases |events| - i, !stopped
      {
        ghost var segs, n, oldUi := db.segments, db.lastSegmentId + 1, ui;
        var shown, stop := HandleLiveEvent(sessionId, events[i]);
        ui := ui + shown;
        if stop {
          LiveStop(events, i, sessionId, n, segs, oldUi, old(db.segments), old(db.lastSegmentId) + 1);
          stopped := true;
        } else {
          LiveStep(events, i, sessionId, n, segs, oldUi, old(db.segments), old(db.lastSegmentId) + 1,
                   i + 1, db.lastSegmentId + 1, db.segments, ui);
          i := i + 1;
        }
      }
      if !stopped {
        assert events[i..] == [];
        assert db.segments + [] == db.segments && ui + [] == ui;
      }
    }

    /** The body of the event task's loop for one event. */
    method HandleLiveEvent(sessionId: string, e: Realtime.TranscriptionEvent) returns (shown: seq<UiEvent>, stop: bool)
      requires Valid()
      modifies db
      ensures Valid()
      ensures stop <==> e.Error?
      ensures stop ==> shown == [SessionError(e.message)]
      ensures !stop ==> shown == EventUi(e, sessionId, old(db.lastSegmentId) + 1)
      ensures db.segments == old(db.segments) + EventRows(e, sessionId, old(db.lastSegmentId) + 1)
      ensures db.lastSegmentId == old(db.lastSegmentId) + |EventRows(e, sessionId, old(db.lastSegmentId) + 1)|
      ensures db.sessions == old(db.sessions) && db.settings == old(db.settings)
    {
      stop := false;
      match e {
        case TextDelta(text) =>
          shown := [TranscriptionDelta(text)];
        case Segment(text, start, end) =>
          var segId := db.SaveSegment(sessionId, text, start, end, None, false);
          shown := [TranscriptionSegment(Db.Segment(segId, sessionId, text, start, end, None, false))];
        case Error(message) =>
          shown := [SessionError(message)];
          stop := true;
        case Language(_) =>
          shown := [];
        case Done(_) =>
          shown := [];
      }
    }

    /** The batch task after `stop_session`. On failure only `session-error`
        is emitted. On success the session's live rows are deleted, one
        diarized row is saved per response segment in order, and, when the
        transcript is not empty, the generated title and summary (each
        passed in as the result of its request) are saved if they came back;
        then `session-complete` is emitted. */
    method ApplyBatchResult(sessionId: string, result: Result<Batch.TranscriptionResponse, string>,
                            title: Result<string, string>, summaryJson: Result<string, string>)
      returns (ui: seq<UiEvent>)
      requires Valid()
      modifies db
      ensures Valid()
      ensures db.settings == old(db.settings)
      ensures result.Err? ==>
                ui == [SessionError("Erreur de transcription: " + result.error)]
                && db.segments == old(db.segments) && db.sessions == old(db.sessions)
                && db.lastSegmentId == old(db.lastSegmentId) && db.fts == old(db.fts)
      ensures result.Ok? ==>
                ui == [SessionComplete(sessionId)]
                && db.lastSegmentId == old(db.lastSegmentId) + |result.value.segments|
                && db.segments == Db.Cleared(old(db.segments), sessionId, Db.LiveRows)
                                  + DiarizedRows(sessionId, result.value.segments, old(db.lastSegmentId) + 1)
                && db.sessions == AfterSummary(old(db.sessions), sessionId,
                                               JoinLines(BatchLines(result.value.segments)), title, summaryJson)
    {
      if result.Err? {
        return [SessionError("Erreur de transcription: " + result.error)];
      }
      var segs := result.value.segments;
      db.ClearLiveSegments(sessionId);
      SaveDiarizedRows(sessionId, segs);
      var transcript := JoinLines(BatchLines(segs));
      SaveTitleAndSummary(sessionId, transcript, title, summaryJson);
      ui := [SessionComplete(sessionId)];
    }

    /** The title and summary step of the batch task: skipped for an empty
        transcript, and each result saved only when its request succeeded. */
    method SaveTitleAndSummary(sessionId: string, transcript: string,
                               title: Result<string, string>, summaryJson: Result<string, string>)
      requires Valid()
      modifies db
      ensures Valid()
      ensures db.sessions == AfterSummary(old(db.sessions), sessionId, transcript, title, summaryJson)
      ensures db.segments == old(db.segments) && db.lastSegmentId == old(db.lastSegmentId)
      ensures db.fts == old(db.fts) && db.settings == old(db.settings)
    {
      if transcript != [] {
        if title.Ok? {
          db.UpdateSessionTitle(sessionId, title.value);
        }
        if summaryJson.Ok? {
          db.SaveSummary(sessionId, summaryJson.value);
        }
      }
    }

    /** The `for seg in &result.segments` loop of the batch task: one
        diarized row per response segment, in order, under consecutive ids. */
    method SaveDiarizedRows(sessionId: string, segs: seq<Batch.TranscriptionSegment>)
      requires Valid()
      modifies db
      ensures Valid()
      ensures db.sessions == old(db.sessions) && db.settings == old(db.settings)
      ensures db.lastSegmentId == old(db.lastSegmentId) + |segs|
      ensures db.segments == old(db.segments) + DiarizedRows(sessionId, segs, old(db.lastSegmentId) + 1)
    {
      ghost var firstId := db.lastSegmentId + 1;
      var k := 0;
      while k < |segs|
        invariant 0 <= k <= |segs|
        invariant db.Valid()
        invariant db.sessions == old(db.sessions) && db.settings == old(db.settings)
        invariant db.lastSegmentId == firstId - 1 + k
        invariant db.segments == old(db.segments) + DiarizedRows(sessionId, segs[..k], firstId)
      {
        var seg := segs[k];
        DiarizedSnoc(sessionId, segs, firstId, k);
        var segId := db.SaveSegment(sessionId, seg.text, seg.start, seg.end, seg.speakerId, true);
        k := k + 1;
      }
      assert segs[..|segs|] == segs;
    }

    /** `get_api_key`: the cached key, not the stored setting. */
    function GetApiKey(): (r: string)
      reads this
    {
      apiKey
    }

    /** `set_api_key`: the cached key is replaced, then the `api_key` setting
        is written, so the next `start_session` checks the new key. */
    method SetApiKey(key: string)
      requires Valid()
      modifies this, db
      ensures Valid()
      ensures GetApiKey() == key && db.GetSetting(API_KEY_SETTING) == Some(key)
      ensures forall k :: k != API_KEY_SETTING ==> db.GetSetting(k) == old(db.GetSetting(k))
      ensures db == old(db) && active == old(active) && stopSignals == old(stopSignals)
      ensures db.sessions == old(db.sessions) && db.segments == old(db.segments)
      ensures db.lastSegmentId == old(db.lastSegmentId) && db.fts == old(db.fts)
    {
      apiKey := key;
      db.SetSetting(API_KEY_SETTING, key);
    }

    /** `set_setting` as a command: the `api_key` setting also replaces the
        cached key; any other key leaves the cache alone. */
    method SetSetting(key: string, value: string)
      requires Valid()
      modifies this, db
      ensures Valid()
      ensures key == API_KEY_SETTING ==> GetApiKey() == value
      ensures key != API_KEY_SETTING ==> GetApiKey() == old(GetApiKey())
      ensures db.GetSetting(key) == Some(value)
      ensures forall k :: k != key ==> db.GetSetting(k) == old(db.GetSetting(k))
      ensures db == old(db) && active == old(active) && stopSignals == old(stopSignals)
      ensures db.sessions == old(db.sessions) && db.segments == old(db.segments)
      ensures db.lastSegmentId == old(db.lastSegmentId) && db.fts == old(db.fts)
    {
      if key == API_KEY_SETTING {
        apiKey := value;
      }
      db.SetSetting(key, value);
    }

    /** `export_session` up to the write: the target directory and file name,
        and for Markdown the document. Unknown formats and unknown sessions
        are errors; the summary JSON is read with `parse`, and the title is
        sanitised with `isAlnum` standing for `char::is_alphanumeric`. */
    function ExportSession(sessionId: string, format: string, defaultDir: string,
                           parse: string -> Option<Chat.Summary>, isAlnum: char -> bool): (r: Result<ExportFile, string>)
      reads this, db
      ensures format != "markdown" && format != "pdf" ==> r == Err(UnsupportedFormat(format))
      ensures (format == "markdown" || format == "pdf") ==>
                (r.Err? <==> db.GetSession(sessionId).Err?)
      ensures r.Err? && (format == "markdown" || format == "pdf") ==> r.error == DbErrorText(Db.NotFound)
      ensures r.Ok? ==>
                var s := db.GetSession(sessionId).value;
                r.value.dir == ExportDir(db.GetSetting("export_dir"), defaultDir)
                && r.value.name == FileName(s.title, sessionId, if format == "pdf" then ".pdf" else ".md", isAlnum)
                && (format == "pdf" <==> r.value.markdown.None?)
                && (format == "markdown" ==>
                      r.value.markdown == Some(Export.MarkdownDocument(s.title, s.createdAt, s.durationSecs,
                                                                      db.GetSegments(sessionId), StoredSummary(s, parse))))
    {
      if format != "markdown" && format != "pdf" then Err(UnsupportedFormat(format))
      else
        match db.GetSession(sessionId)
        case Err(e) => Err(DbErrorText(e))
        case Ok(s) =>
          var dir := ExportDir(db.GetSetting("export_dir"), defaultDir);
          if format == "markdown" then
            var md := Export.MarkdownDocument(s.title, s.createdAt, s.durationSecs,
                                              db.GetSegments(sessionId), StoredSummary(s, parse));
            Ok(ExportFile(dir, FileName(s.title, sessionId, ".md", isAlnum), Some(md)))
          else
            Ok(ExportFile(dir, FileName(s.title, sessionId, ".pdf", isAlnum), None))
    }
  }

  /** The session rows after the batch task's title and summary step. */
  function AfterSummary(ss: seq<Db.Session>, sid: string, transcript: string,
                        title: Result<string, string>, summaryJson: Result<string, string>): seq<Db.Session>
  {
    if transcript == [] then ss
    else
      var titled := if title.Ok? then Db.UpdateSessions(ss, sid, Db.Title(title.value)) else ss;
      if summaryJson.Ok? then Db.UpdateSessions(titled, sid, Db.SummaryJson(summaryJson.value)) else titled
  }
}
