/** The real-time transcription protocol (mistral/realtime.rs) as transducers
    over message sequences: the audio byte encoding, the two-stage
    handshake, the receiver loop and the sender loop. Sockets, JSON and
    base64 are not modelled: incoming text frames arrive already classified,
    outgoing audio is given as its byte payload. */
module Realtime {
  import opened Wrappers
  import opened Pcm

  // ---------------------------------------------------------------------------
  // Little-endian encoding of samples (`i16::to_le_bytes`)

  /** The low byte of the two's-complement representation. */
  function Lo(s: Int16): Byte { (s + 65536) % 256 }

  /** The high byte of the two's-complement representation. */
  function Hi(s: Int16): Byte { ((s + 65536) % 65536) / 256 }

  /** The byte payload of a chunk: two bytes per sample, low byte first. */
  function LeBytes(samples: seq<Int16>): seq<Byte>
  {
    if samples == [] then []
    else LeBytes(samples[..|samples| - 1]) + [Lo(samples[|samples| - 1]), Hi(samples[|samples| - 1])]
  }

  /** The loop `for &s in &resampled { bytes.extend_from_slice(&s.to_le_bytes()) }`. */
  method EncodeLe(samples: seq<Int16>) returns (bytes: seq<Byte>)
    ensures bytes == LeBytes(samples)
  {
    bytes := [];
    var i := 0;
    while i < |samples|
      invariant 0 <= i <= |samples|
      invariant bytes == LeBytes(samples[..i])
    {
      var s := samples[i];
      bytes := bytes + [Lo(s), Hi(s)];
      assert samples[..i + 1][..i] == samples[..i];
      i := i + 1;
    }
    assert samples[..i] == samples;
  }

  /** Sample `i` occupies bytes `2i` (low) and `2i + 1` (high). */
  lemma {:induction false} LeBytesLayout(samples: seq<Int16>)
    ensures |LeBytes(samples)| == 2 * |samples|
    ensures forall i :: 0 <= i < |samples| ==>
              LeBytes(samples)[2 * i] == Lo(samples[i]) && LeBytes(samples)[2 * i + 1] == Hi(samples[i])
  {
    if samples != [] {
      LeBytesLayout(samples[..|samples| - 1]);
    }
  }

  /** Reads a sample back from its two bytes. */
  function DecodeSample(lo: Byte, hi: Byte): Int16
  {
    var u := lo + 256 * hi;
    if u >= 32768 then u - 65536 else u
  }

  lemma SampleRoundTrip(s: Int16)
    ensures DecodeSample(Lo(s), Hi(s)) == s
  {
    var u := (s + 65536) % 65536;
    assert Lo(s) == u % 256;
    assert Lo(s) + 256 * Hi(s) == u;
  }

  /** Reads a payload back, one sample per byte pair. */
  function DecodeLe(bytes: seq<Byte>): (r: seq<Int16>)
    requires |bytes| % 2 == 0
    ensures |r| == |bytes| / 2
  {
    seq(|bytes| / 2, i requires 0 <= i < |bytes| / 2 => DecodeSample(bytes[2 * i], bytes[2 * i + 1]))
  }

  /** Decoding the payload recovers the samples. */
  lemma EncodeRoundTrip(samples: seq<Int16>)
    ensures |LeBytes(samples)| % 2 == 0
    ensures DecodeLe(LeBytes(samples)) == samples
  {
    LeBytesLayout(samples);
    forall i | 0 <= i < |samples| ensures DecodeLe(LeBytes(samples))[i] == samples[i] {
      SampleRoundTrip(samples[i]);
    }
  }

  // ---------------------------------------------------------------------------
  // Incoming frames

  /** `WsIncoming`: the messages the service sends, once parsed. The `error`
      payload is kept as its rendered text. */
  datatype WsIncoming =
    | SessionCreated
    | SessionUpdated
    | LanguageMsg(audioLanguage: string)
    | TextDeltaMsg(text: string)
    | SegmentMsg(text: string, start: real, end: real)
    | DoneMsg(text: string)
    | ErrorMsg(error: string)

  /** The outcome of parsing a text frame. */
  datatype Payload = Parsed(msg: WsIncoming) | Unparseable

  /** One item of the WebSocket read stream. */
  datatype Frame =
    | ReadError(reason: string)  // `Err(e)` from the stream
    | Text(payload: Payload)     // a text frame
    | Close                      // a close frame
    | OtherFrame                 // binary, ping, pong

  /** `TranscriptionEvent`: what is forwarded to the application. */
  datatype TranscriptionEvent =
    | Language(audioLanguage: string)
    | TextDelta(text: string)
    | Segment(text: string, start: real, end: real)
    | Done(text: string)
    | Error(message: string)

  // ---------------------------------------------------------------------------
  // The handshake

  /** Which acknowledgement a handshake loop waits for. */
  datatype Stage = AwaitCreated | AwaitUpdated

  predicate Awaited(stage: Stage, m: WsIncoming)
  {
    match stage
    case AwaitCreated => m.SessionCreated?
    case AwaitUpdated => m.SessionUpdated?
  }

  /** A frame that makes the handshake fail. */
  predicate Fatal(f: Frame)
  {
    f.ReadError? || (f.Text? && f.payload.Parsed? && f.payload.msg.ErrorMsg?)
  }

  /** A frame that completes the handshake stage. */
  predicate Acknowledges(stage: Stage, f: Frame)
  {
    f.Text? && f.payload.Parsed? && Awaited(stage, f.payload.msg)
  }

  function ServerErrorText(stage: Stage, error: string): string
  {
    match stage
    case AwaitCreated => "Realtime session error: " + error
    case AwaitUpdated => "Realtime session.update error: " + error
  }

  function ClosedText(stage: Stage): string
  {
    match stage
    case AwaitCreated => "WebSocket closed before session.created"
    case AwaitUpdated => "WebSocket closed before session.updated"
  }

  /** The outcome of a handshake stage reading from position `i`: the
      position after the acknowledgement, or the error returned. */
  function StageFrom(frames: seq<Frame>, i: nat, stage: Stage): Result<nat, string>
    decreases |frames| - i
  {
    if i >= |frames| then Err(ClosedText(stage))
    else match frames[i]
      case ReadError(e) => Err("WebSocket read error: " + e)
      case Text(Parsed(m)) =>
        if Awaited(stage, m) then Ok(i + 1)
        else if m.ErrorMsg? then Err(ServerErrorText(stage, m.error))
        else StageFrom(frames, i + 1, stage)
      case _ => StageFrom(frames, i + 1, stage)
  }

  /** One `while let Some(msg) = ws_read.next().await` handshake loop. */
  method AwaitStage(frames: seq<Frame>, start: nat, stage: Stage) returns (r: Result<nat, string>)
    ensures r == StageFrom(frames, start, stage)
  {
    var ready := false;
    var i := start;
    while i < |frames|
      invariant start <= i
      invariant StageFrom(frames, start, stage) == StageFrom(frames, i, stage)
      decreases |frames| - i
    {
      match frames[i] {
        case ReadError(e) =>
          return Err("WebSocket read error: " + e);
        case Text(p) =>
          if p.Parsed? {
            if Awaited(stage, p.msg) {
              ready := true;
              i := i + 1;
              break;
            } else if p.msg.ErrorMsg? {
              return Err(ServerErrorText(stage, p.msg.error));
            }
          }
        case Close =>
        case OtherFrame =>
      }
      i := i + 1;
    }
    if !ready {
      return Err(ClosedText(stage));
    }
    r := Ok(i);
  }

  /** A stage succeeds exactly when an acknowledgement arrives before any
      failing frame and before the stream ends; it then resumes right after
      that acknowledgement. */
  lemma {:induction false} StageSucceedsIff(frames: seq<Frame>, i: nat, stage: Stage)
    ensures StageFrom(frames, i, stage).Ok? <==>
              exists k :: i <= k < |frames| && Acknowledges(stage, frames[k])
                          && forall j :: i <= j < k ==> !Fatal(frames[j]) && !Acknowledges(stage, frames[j])
    ensures StageFrom(frames, i, stage).Ok? ==>
              var k := StageFrom(frames, i, stage).value - 1;
              i <= k < |frames| && Acknowledges(stage, frames[k])
    decreases |frames| - i
  {
    if i < |frames| {
      var f := frames[i];
      if Acknowledges(stage, f) || Fatal(f) {
        if !Acknowledges(stage, f) {
          assert StageFrom(frames, i, stage).Err?;
          forall k | i <= k < |frames| && Acknowledges(stage, frames[k])
            ensures exists j :: i <= j < k && (Fatal(frames[j]) || Acknowledges(stage, frames[j]))
          {
            assert k != i;
          }
        }
      } else {
        assert StageFrom(frames, i, stage) == StageFrom(frames, i + 1, stage);
        StageSucceedsIff(frames, i + 1, stage);
        if StageFrom(frames, i + 1, stage).Ok? {
          var k :| i + 1 <= k < |frames| && Acknowledges(stage, frames[k])
                   && forall j :: i + 1 <= j < k ==> !Fatal(frames[j]) && !Acknowledges(stage, frames[j]);
          assert forall j :: i <= j < k ==> !Fatal(frames[j]) && !Acknowledges(stage, frames[j]);
        } else {
          forall k | i <= k < |frames| && Acknowledges(stage, frames[k])
            ensures exists j :: i <= j < k && (Fatal(frames[j]) || Acknowledges(stage, frames[j]))
          {
            assert k != i;
            assert exists j :: i + 1 <= j < k && (Fatal(frames[j]) || Acknowledges(stage, frames[j]));
          }
        }
      }
    }
  }

  /** A server `error` arriving first fails the stage with that error's text. */
  lemma ServerErrorFirst(frames: seq<Frame>, i: nat, stage: Stage, error: string)
    requires i < |frames| && frames[i] == Text(Parsed(ErrorMsg(error)))
    ensures StageFrom(frames, i, stage) == Err(ServerErrorText(stage, error))
  {
  }

  /** Frames that neither fail nor acknowledge are skipped. */
  lemma {:induction false} StageSkips(frames: seq<Frame>, i: nat, n: nat, stage: Stage)
    requires i + n <= |frames|
    requires forall j :: i <= j < i + n ==> !Fatal(frames[j]) && !Acknowledges(stage, frames[j])
    ensures StageFrom(frames, i, stage) == StageFrom(frames, i + n, stage)
    decreases n
  {
    if n > 0 {
      assert !Fatal(frames[i]) && !Acknowledges(stage, frames[i]);
      assert StageFrom(frames, i, stage) == StageFrom(frames, i + 1, stage);
      StageSkips(frames, i + 1, n - 1, stage);
    }
  }

  /** The outcome of `connect_realtime` after the socket is open: the
      position where the receiver takes over, or the error returned.
      `updateSendError` is the failure, if any, of sending `session.update`. */
  function ConnectOutcome(frames: seq<Frame>, updateSendError: Option<string>): Result<nat, string>
  {
    match StageFrom(frames, 0, AwaitCreated)
    case Err(e) => Err(e)
    case Ok(k) =>
      match updateSendError
      case Some(e) => Err("Failed to send session.update: " + e)
      case None => StageFrom(frames, k, AwaitUpdated)
  }

  /** The two handshake stages in sequence. */
  method Connect(frames: seq<Frame>, updateSendError: Option<string>) returns (r: Result<nat, string>)
    ensures r == ConnectOutcome(frames, updateSendError)
  {
    var created := AwaitStage(frames, 0, AwaitCreated);
    if created.Err? {
      return Err(created.error);
    }
    if updateSendError.Some? {
      return Err("Failed to send session.update: " + updateSendError.value);
    }
    r := AwaitStage(frames, created.value, AwaitUpdated);
  }

  /** A connection succeeds only after `session.created` and then
      `session.updated` were read, in that order. */
  lemma ConnectOrder(frames: seq<Frame>, updateSendError: Option<string>)
    requires ConnectOutcome(frames, updateSendError).Ok?
    ensures updateSendError.None?
    ensures exists c, u :: 0 <= c < u < |frames| && Acknowledges(AwaitCreated, frames[c])
                           && Acknowledges(AwaitUpdated, frames[u])
                           && u + 1 == ConnectOutcome(frames, updateSendError).value
  {
    StageSucceedsIff(frames, 0, AwaitCreated);
    var k := StageFrom(frames, 0, AwaitCreated).value;
    StageSucceedsIff(frames, k, AwaitUpdated);
    var u := StageFrom(frames, k, AwaitUpdated).value - 1;
    assert Acknowledges(AwaitCreated, frames[k - 1]) && Acknowledges(AwaitUpdated, frames[u]);
  }

  // ---------------------------------------------------------------------------
  // The receiver task

  /** A frame after which the receiver stops. */
  predicate Stops(f: Frame)
  {
    f.ReadError? || f.Close?
    || (f.Text? && f.payload.Parsed? && (f.payload.msg.DoneMsg? || f.payload.msg.ErrorMsg?))
  }

  /** The event forwarded for one frame, if any. */
  function Forwarded(f: Frame): seq<TranscriptionEvent>
  {
    match f
    case ReadError(e) => [Error("WebSocket read error: " + e)]
    case Text(Parsed(m)) =>
      (match m
       case TextDeltaMsg(t) => [TextDelta(t)]
       case SegmentMsg(t, s, e) => [Segment(t, s, e)]
       case DoneMsg(t) => [Done(t)]
       case LanguageMsg(l) => [Language(l)]
       case ErrorMsg(e) => [Error("Erreur serveur: " + e)]
       case SessionCreated => []
       case SessionUpdated => [])
    case Text(Unparseable) => []
    case Close => []
    case OtherFrame => []
  }

  /** The events the receiver forwards for a frame stream. */
  function Received(frames: seq<Frame>): seq<TranscriptionEvent>
  {
    if frames == [] then []
    else if Stops(frames[0]) then Forwarded(frames[0])
    else Forwarded(frames[0]) + Received(frames[1..])
  }

  /** The receiver's `while let` loop. */
  method Receive(frames: seq<Frame>) returns (events: seq<TranscriptionEvent>)
    ensures events == Received(frames)
  {
    events := [];
    var i := 0;
    while i < |frames|
      invariant 0 <= i <= |frames|
      invariant Received(frames) == events + Received(frames[i..])
    {
      var f := frames[i];
      var emitted := Forwarded(f);
      var stop := Stops(f);
      ReceivedStep(frames, i);
      events := events + emitted;
      if stop {
        break;
      }
      i := i + 1;
    }
    assert i == |frames| ==> frames[i..] == [];
  }

  lemma ReceivedStep(frames: seq<Frame>, i: nat)
    requires i < |frames|
    ensures Received(frames[i..]) ==
              if Stops(frames[i]) then Forwarded(frames[i]) else Forwarded(frames[i]) + Received(frames[i + 1..])
  {
    assert frames[i..][0] == frames[i] && frames[i..][1..] == frames[i + 1..];
  }

  /** Nothing is forwarded after a stopping frame. */
  lemma {:induction false} ReceivedStops(frames: seq<Frame>, more: seq<Frame>, k: nat)
    requires k < |frames| && Stops(frames[k])
    ensures Received(frames + more) == Received(frames)
  {
    if !Stops(frames[0]) {
      assert (frames + more)[1..] == frames[1..] + more;
      ReceivedStops(frames[1..], more, k - 1);
    }
  }

  /** Before any stopping frame the receiver forwards frame by frame, in
      arrival order. */
  lemma {:induction false} ReceivedAppend(frames: seq<Frame>, more: seq<Frame>)
    requires forall k :: 0 <= k < |frames| ==> !Stops(frames[k])
    ensures Received(frames + more) == Received(frames) + Received(more)
  {
    if frames == [] {
      assert frames + more == more;
    } else {
      assert (frames + more)[1..] == frames[1..] + more;
      ReceivedAppend(frames[1..], more);
    }
  }

  /** Session acknowledgements, unparseable text and control frames forward
      nothing; each data message forwards exactly its own event. */
  lemma ForwardedShape(f: Frame)
    ensures |Forwarded(f)| <= 1
    ensures Forwarded(f) == [] <==>
              !f.ReadError? && (f.Text? ==> (f.payload.Unparseable? || f.payload.msg.SessionCreated? || f.payload.msg.SessionUpdated?))
    ensures f.Text? && f.payload.Parsed? && f.payload.msg.TextDeltaMsg? ==> Forwarded(f) == [TextDelta(f.payload.msg.text)]
    ensures f.Text? && f.payload.Parsed? && f.payload.msg.DoneMsg? ==> Forwarded(f) == [Done(f.payload.msg.text)]
  {
  }

  /** A stopping frame ends the output with its own event. */
  lemma {:induction false} ReceivedEndsWith(frames: seq<Frame>, k: nat)
    requires k < |frames| && Stops(frames[k])
    requires forall j :: 0 <= j < k ==> !Stops(frames[j])
    ensures Received(frames) == Received(frames[..k]) + Forwarded(frames[k])
  {
    assert frames == frames[..k] + frames[k..];
    ReceivedAppend(frames[..k], frames[k..]);
    assert frames[k..][0] == frames[k];
  }

  // ---------------------------------------------------------------------------
  // The sender task

  /** `AudioMsg`: what the audio loop hands to the sender. */
  datatype AudioMsg = Chunk(samples: seq<Int16>) | End

  /** What the sender transmits: an `input_audio.append` carrying the given
      payload (before base64), or `input_audio.end`. */
  datatype Outgoing = AppendAudio(bytes: seq<Byte>) | AudioEnd

  const API_SAMPLE_RATE: nat := 16000

  /** `resample`: the identity when the rates agree or there is nothing to
      resample; otherwise the interpolation, passed in as `interpolate`. */
  function Resample(samples: seq<Int16>, fromRate: nat, toRate: nat,
                    interpolate: seq<Int16> -> seq<Int16>): seq<Int16>
  {
    if fromRate == toRate || samples == [] then samples else interpolate(samples)
  }

  /** The frames the sender transmits from message `i` on; `sendOk(i)` says
      whether the send for message `i` succeeded. */
  function SentFrom(msgs: seq<AudioMsg>, i: nat, srcRate: nat, interpolate: seq<Int16> -> seq<Int16>,
                    sendOk: nat -> bool): seq<Outgoing>
    decreases |msgs| - i
  {
    if i >= |msgs| then []
    else match msgs[i]
      case End => [AudioEnd]
      case Chunk(s) =>
        [AppendAudio(LeBytes(Resample(s, srcRate, API_SAMPLE_RATE, interpolate)))]
        + (if sendOk(i) then SentFrom(msgs, i + 1, srcRate, interpolate, sendOk) else [])
  }

  /** The sender's `while let Some(msg) = audio_rx.recv().await` loop. */
  method RunSender(msgs: seq<AudioMsg>, srcRate: nat, interpolate: seq<Int16> -> seq<Int16>,
                   sendOk: nat -> bool) returns (sent: seq<Outgoing>)
    ensures sent == SentFrom(msgs, 0, srcRate, interpolate, sendOk)
  {
    sent := [];
    var i := 0;
    while i < |msgs|
      invariant 0 <= i <= |msgs|
      invariant SentFrom(msgs, 0, srcRate, interpolate, sendOk) == sent + SentFrom(msgs, i, srcRate, interpolate, sendOk)
      decreases |msgs| - i
    {
      ghost var before := sent;
      match msgs[i] {
        case Chunk(samples) =>
          var resampled := Resample(samples, srcRate, API_SAMPLE_RATE, interpolate);
          var bytes := EncodeLe(resampled);
          sent := sent + [AppendAudio(bytes)];
          SendStep(before, [AppendAudio(bytes)], SentFrom(msgs, i + 1, srcRate, interpolate, sendOk));
          if !sendOk(i) {
            return;
          }
        case End =>
          sent := sent + [AudioEnd];
          return;
      }
      i := i + 1;
    }
  }

  lemma SendStep(a: seq<Outgoing>, b: seq<Outgoing>, c: seq<Outgoing>)
    ensures a + (b + c) == (a + b) + c
  {
  }

  function AlwaysOk(i: nat): bool { true }

  /** What the sender transmits when every send succeeds: each chunk up to
      the first `End`, in order, then one `input_audio.end`. */
  function IdealFrom(msgs: seq<AudioMsg>, i: nat, srcRate: nat, interpolate: seq<Int16> -> seq<Int16>): seq<Outgoing>
  {
    SentFrom(msgs, i, srcRate, interpolate, AlwaysOk)
  }

  /** Whatever the send failures, the transmitted frames are a prefix of the
      ideal transmission; they are all of it when every send succeeds. */
  lemma {:induction false} SentIsPrefix(msgs: seq<AudioMsg>, i: nat, srcRate: nat,
                                        interpolate: seq<Int16> -> seq<Int16>, sendOk: nat -> bool)
    ensures var sent := SentFrom(msgs, i, srcRate, interpolate, sendOk);
            var ideal := IdealFrom(msgs, i, srcRate, interpolate);
            |sent| <= |ideal| && sent == ideal[..|sent|]
    ensures (forall j :: i <= j < |msgs| ==> sendOk(j)) ==>
              SentFrom(msgs, i, srcRate, interpolate, sendOk) == IdealFrom(msgs, i, srcRate, interpolate)
    decreases |msgs| - i
  {
    if i < |msgs| && msgs[i].Chunk? {
      SentIsPrefix(msgs, i + 1, srcRate, interpolate, sendOk);
      var head := [AppendAudio(LeBytes(Resample(msgs[i].samples, srcRate, API_SAMPLE_RATE, interpolate)))];
      var rest := IdealFrom(msgs, i + 1, srcRate, interpolate);
      assert IdealFrom(msgs, i, srcRate, interpolate) == head + rest;
      if sendOk(i) {
        var tail := SentFrom(msgs, i + 1, srcRate, interpolate, sendOk);
        assert SentFrom(msgs, i, srcRate, interpolate, sendOk) == head + tail;
        assert (head + rest)[..1 + |tail|] == head + rest[..|tail|];
      }
    }
  }

  /** `input_audio.end` is sent at most once and is the last frame sent. */
  lemma {:induction false} EndIsLast(msgs: seq<AudioMsg>, i: nat, srcRate: nat,
                                     interpolate: seq<Int16> -> seq<Int16>, sendOk: nat -> bool)
    ensures forall j :: 0 <= j < |SentFrom(msgs, i, srcRate, interpolate, sendOk)| - 1 ==>
              SentFrom(msgs, i, srcRate, interpolate, sendOk)[j].AppendAudio?
    decreases |msgs| - i
  {
    if i < |msgs| && msgs[i].Chunk? && sendOk(i) {
      EndIsLast(msgs, i + 1, srcRate, interpolate, sendOk);
      var head := [AppendAudio(LeBytes(Resample(msgs[i].samples, srcRate, API_SAMPLE_RATE, interpolate)))];
      var tail := SentFrom(msgs, i + 1, srcRate, interpolate, sendOk);
      var sent := SentFrom(msgs, i, srcRate, interpolate, sendOk);
      assert sent == head + tail;
      forall j | 0 <= j < |sent| - 1 ensures sent[j].AppendAudio? {
        if j > 0 { assert sent[j] == tail[j - 1]; }
      }
    }
  }

  /** Nothing after an `End` message is transmitted. */
  lemma {:induction false} NothingAfterEnd(msgs: seq<AudioMsg>, more: seq<AudioMsg>, i: nat, k: nat, srcRate: nat,
                                           interpolate: seq<Int16> -> seq<Int16>, sendOk: nat -> bool)
    requires i <= k < |msgs| && msgs[k] == End
    ensures SentFrom(msgs + more, i, srcRate, interpolate, sendOk) == SentFrom(msgs, i, srcRate, interpolate, sendOk)
    decreases k - i
  {
    assert (msgs + more)[i] == msgs[i];
    if msgs[i].Chunk? {
      NothingAfterEnd(msgs, more, i + 1, k, srcRate, interpolate, sendOk);
    }
  }

  /** Each chunk is sent resampled to the service's rate, encoded as bytes;
      the same rate means the samples go out unchanged. */
  lemma ChunkPayload(s: seq<Int16>, interpolate: seq<Int16> -> seq<Int16>)
    ensures Resample(s, API_SAMPLE_RATE, API_SAMPLE_RATE, interpolate) == s
    ensures |LeBytes(Resample(s, API_SAMPLE_RATE, API_SAMPLE_RATE, interpolate))| % 2 == 0
    ensures DecodeLe(LeBytes(Resample(s, API_SAMPLE_RATE, API_SAMPLE_RATE, interpolate))) == s
  {
    EncodeRoundTrip(s);
  }
}
