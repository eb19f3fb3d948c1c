# poptranscribe core in Dafny

This project models the core of poptranscribe, a meeting recorder. It
captures audio, streams it to a real-time transcription service, stores the
live segments, and re-transcribes the recording with speaker diarization when
the session stops. It can then summarise the transcript, search it, and
export it to Markdown.

The model covers these parts of the Rust back end (`src-tauri/src`):

| file | module | form |
|---|---|---|
| `audio/mixer.rs` | `Mixer` (`mixer.dfy`) | pure functions and lemmas |
| `export/mod.rs` | `Export` (`export.dfy`) | pure formatters, plus `ExportMarkdown` with its loops as methods |
| `db/mod.rs` | `Db` (`db.dfy`) | class `Database` over tables held as sequences, plus a counter and maps |
| `mistral/realtime.rs` | `Realtime` (`realtime.dfy`), `Sse` (`sse.dfy`) | the loops as methods, each proved equal to a specification function |
| `commands.rs` | `Commands` (`commands.dfy`) | class `App` for the active-session slot, class `SampleBuffer` for the recorded audio, pure transcript and file-name functions |

Shared modules:

- `wrappers.dfy` holds `Option` and `Result`.
- `pcm.dfy` holds the `Int16` and `Byte` types.
- `chat.dfy` holds the summary records.
- `batch.dfy` holds the batch-response records.

The network, the clock, uuids, JSON, base64 and the audio hardware become
parameters. Each parameter carries what that dependency returned, for
example:

- the frames read from the WebSocket;
- the chunks of an HTTP body;
- a `parse` function for JSON;
- `startCapture` for the audio device;
- `matches` for the FTS5 `MATCH`.

## Model

| member | source | states |
|---|---|---|
| Mixer.Clamp | src-tauri/src/audio/mixer.rs:9 | values below/above the i16 range go to MIN/MAX, values in range are kept |
| Mixer.MixSamples | src-tauri/src/audio/mixer.rs:3-12 | output length is max(\|a\|,\|b\|); element i is clamp(a[i]+b[i]) with a missing sample read as 0; every sample is in the i16 range (result type) |
| Mixer.MixCommutes | src-tauri/src/audio/mixer.rs:3-11 | mixing is symmetric in its two inputs |
| Mixer.MixWithSilence | src-tauri/src/audio/mixer.rs:7-8 | mixing with a shorter or equal buffer of zeros (including the empty one) returns the first buffer unchanged |
| Mixer.MixSaturates | src-tauri/src/audio/mixer.rs:9 | an in-range sum is kept, an overflowing sum saturates at MAX, an underflowing one at MIN |
| Mixer.MixExamples | src-tauri/src/audio/mixer.rs:19-57 | the five unit-test cases: plain sum, clamp at MAX, clamp at MIN, zero padding, empty input |
| Export.DigitChar | src-tauri/src/export/mod.rs:12 | a digit below 10 becomes the decimal character of that value |
| Export.NatToStringRoundTrip | src-tauri/src/export/mod.rs:26-30 | `{}` formatting gives only digits, reads back as the number, and has one digit iff n < 10, two iff 10 <= n < 100 |
| Export.Pad2RoundTrip | src-tauri/src/export/mod.rs:12-14 | `{:02}` gives digits that read back as the number, exactly two of them below 100, and the plain form from 10 on |
| Export.Decomposition | src-tauri/src/export/mod.rs:6-9 | h*3600 + m*60 + s equals the total, with m < 60 and s < 60 |
| Export.TimestampRoundTrip | src-tauri/src/export/mod.rs:5-16 | decoding the timestamp gives the truncated second count back, so no two counts share a timestamp; the short `[MM:SS]` form (7 characters) is used iff there are no whole hours |
| Export.DecodeShort | src-tauri/src/export/mod.rs:14 | the reference decoder reads `[mm:ss]` as 60*mm + ss |
| Export.DecodeLong | src-tauri/src/export/mod.rs:12 | the reference decoder reads `[hh:mm:ss]` as 3600*hh + 60*mm + ss |
| Export.DurationShape | src-tauri/src/export/mod.rs:19-32 | the branch choice: the hours field appears iff total >= 3600, a minutes field iff total >= 60, and the text always ends in 's' (their values: `DurationRoundTrip`) |
| Export.DurationRoundTrip | src-tauri/src/export/mod.rs:19-32 | an independent reader of `Nh MMmin SSs`, `Mmin SSs` and `Ns` recovers the truncated second count from every rendering, so the fields carry the hours, minutes and seconds and no two counts share a duration text |
| Export.MinuteTimestampExamples | src-tauri/src/export/mod.rs:371-374 | 0 gives `[00:00]` and 3599 gives `[59:59]` |
| Export.HourTimestampExamples | src-tauri/src/export/mod.rs:375-378 | 3661 gives `[01:01:01]` and 7384 gives `[02:03:04]` |
| Export.DurationExamples | src-tauri/src/export/mod.rs:303 | 900 gives `15min 00s` and 7400 gives `2h 03min 20s` (test line 380) |
| Export.TimestampHasNo | src-tauri/src/export/mod.rs:11-15 | a timestamp contains only digits, brackets and colons |
| Export.SegmentLineIsOneLine | src-tauri/src/export/mod.rs:53-60 | when text and speaker have no newline, a segment line holds exactly one '\n', and it is the last character |
| Export.SegmentLinesAppend | src-tauri/src/export/mod.rs:53-60 | the lines of a + b are the lines of a followed by those of b: one line per segment, in input order |
| Export.SegmentLinesCount | src-tauri/src/export/mod.rs:53-60 | the transcription section has exactly one line per segment |
| Export.EmptyExport | src-tauri/src/export/mod.rs:44-52 | with no segments and no summary the document is the header followed by `\n## Transcription\n\n` and ends there (test at lines 340-357) |
| Export.SummaryPresence | src-tauri/src/export/mod.rs:62-64 | the summary part is empty iff there is no summary, and otherwise opens with `\n## Resume\n` |
| Export.SectionPresence | src-tauri/src/export/mod.rs:66-89 | each of the key-points, decisions and actions sections is empty iff its list is empty |
| Export.DurationLinePresence | src-tauri/src/export/mod.rs:45-49 | the header is `# title\n\n**Date:** date\n`, followed by a `**Duree:** ...\n` line iff a duration is given, and that line reads back as the truncated duration |
| Export.ActionLineAssignee | src-tauri/src/export/mod.rs:82-86 | an item with an assignee renders as the same item without one, with ` (Assignee: X)` inserted before the newline |
| Export.ExportMarkdown | src-tauri/src/export/mod.rs:35-93 | the string built by `push_str` equals `MarkdownDocument`: header, `**Duree:**` line only with a duration, transcription heading, segment lines, summary block |
| Export.AppendSegmentLines | src-tauri/src/export/mod.rs:53-60 | the segment loop appends `ts **speaker:** text\n`, or `ts text\n` without a speaker, for each segment in order |
| Export.AppendSummary | src-tauri/src/export/mod.rs:63-90 | appends nothing without a summary; otherwise the `Resume` heading and its three sections |
| Export.AppendKeyPoints | src-tauri/src/export/mod.rs:66-71 | appends the key-points heading and a `- ` line per point, only when there are points |
| Export.AppendDecisions | src-tauri/src/export/mod.rs:73-78 | the same for decisions |
| Export.AppendActions | src-tauri/src/export/mod.rs:80-89 | the actions heading and a `- [ ] ` line per item, only when there are items |
| Export.AppendBullets | src-tauri/src/export/mod.rs:68-70 | the bullet loop appends `- item\n` for each item in order |
| Export.AppendActionLines | src-tauri/src/export/mod.rs:82-88 | the action loop appends ` (Assignee: X)` exactly for items with an assignee |
| Db.Filter | src-tauri/src/db/mod.rs:184-185 | a `WHERE` keeps exactly the rows satisfying the condition, in table order |
| Db.FilterAppend | src-tauri/src/db/mod.rs:184-185 | selecting from a + b selects from a, then from b |
| Db.FilterFilter | src-tauri/src/db/mod.rs:205 | selecting by p and then by q is selecting by both |
| Db.InsertByStart | src-tauri/src/db/mod.rs:185 | inserting into a start-time-sorted list keeps it sorted and adds exactly that row |
| Db.SortByStart | src-tauri/src/db/mod.rs:185 | `ORDER BY start_time ASC` gives a sorted permutation of the rows |
| Db.TextLeqTotal | src-tauri/src/db/mod.rs:115 | text comparison is total |
| Db.TextLeqTrans | src-tauri/src/db/mod.rs:115 | text comparison is transitive |
| Db.InsertNewestFirst | src-tauri/src/db/mod.rs:115 | inserting into a `created_at DESC` list keeps it ordered and adds exactly that row |
| Db.SortNewestFirst | src-tauri/src/db/mod.rs:115 | `ORDER BY created_at DESC` gives an ordered permutation of the sessions |
| Db.FindSession | src-tauri/src/db/mod.rs:93-97 | a found row has the requested id, and nothing is found iff no row has it |
| Db.CreatedIsRetrievable | src-tauri/src/db/mod.rs:83-91 | a created session reads back with its title, mode and creation time, and with no audio path, duration or summary (test at lines 298-308) |
| Db.UpdateSessions | src-tauri/src/db/mod.rs:131-161 | an update keeps the number of sessions |
| Db.UpdateThenFind | src-tauri/src/db/mod.rs:131-161 | the named session reads back with the column written; other ids read back unchanged (tests at lines 319-354) |
| Db.SetFieldColumns | src-tauri/src/db/mod.rs:131-161 | each update writes its own column and keeps every other one |
| Db.UpdateUnknownId | src-tauri/src/db/mod.rs:131-161 | an update of an unknown id changes nothing and is no error |
| Db.UpdateKeepsIds | src-tauri/src/db/mod.rs:48 | updates keep the primary key unique |
| Db.RowsOf | src-tauri/src/db/mod.rs:184-185 | exactly the rows of the session |
| Db.Cleared | src-tauri/src/db/mod.rs:202-215 | a delete keeps exactly the rows it does not match |
| Db.ClearedAll | src-tauri/src/db/mod.rs:209-212 | `clear_segments(sid, false)` leaves the session without segments (test at lines 372-381) |
| Db.ClearedDiarized | src-tauri/src/db/mod.rs:203-207 | `clear_segments(sid, true)` leaves exactly the session's live rows, in order (test at lines 383-393) |
| Db.ClearedLive | src-tauri/src/commands.rs:279 | `clear_live_segments` leaves exactly the session's diarized rows, in order |
| Db.ClearedOther | src-tauri/src/db/mod.rs:202-215 | both clears leave every other session's rows unchanged |
| Db.RowsOfAppend | src-tauri/src/db/mod.rs:175-185 | rows inserted later are read back after the earlier rows of the session |
| Db.RowsOfOwn | src-tauri/src/db/mod.rs:184-185 | rows that all belong to a session are all of its rows and none of another's |
| Db.Renamed | src-tauri/src/db/mod.rs:223-226 | renaming keeps the number of rows |
| Db.RenameEffect | src-tauri/src/db/mod.rs:217-228 | exactly the session's rows with the old speaker get the new name; only their speaker column changes (test at lines 418-431) |
| Db.RenameTwice | src-tauri/src/db/mod.rs:217-228 | after renaming to a different name no row of the session has the old one, so a second rename changes and counts nothing |
| Db.HitsByText | src-tauri/src/db/mod.rs:67-71 | although deletes leave stale index entries, a join with `segments_fts` finds exactly the present rows whose own text matches |
| Db.Database.constructor | src-tauri/src/db/mod.rs:38-79 | a fresh schema has empty tables, an empty index and a counter at 0 |
| Db.Database.CreateSession | src-tauri/src/db/mod.rs:83-91 | inserts the new row and returns its id; a duplicate id is a UNIQUE violation and inserts nothing |
| Db.Database.GetSession | src-tauri/src/db/mod.rs:93-110 | returns the row with that id; it is an error (no rows) iff there is none (test at lines 443-448) |
| Db.Database.ListSessions | src-tauri/src/db/mod.rs:112-129 | all sessions, newest `created_at` first (test at lines 310-317) |
| Db.Database.UpdateSession | src-tauri/src/db/mod.rs:131-161 | the named column of the named session is written; nothing else changes |
| Db.Database.UpdateSessionDuration | src-tauri/src/db/mod.rs:131-137 | writes `duration_secs` |
| Db.Database.UpdateSessionAudioPath | src-tauri/src/db/mod.rs:139-145 | writes `audio_path` |
| Db.Database.UpdateSessionTitle | src-tauri/src/db/mod.rs:147-153 | writes `title` |
| Db.Database.SaveSummary | src-tauri/src/db/mod.rs:155-161 | writes `summary_json` |
| Db.Database.SaveSegment | src-tauri/src/db/mod.rs:165-180 | appends the row under the next AUTOINCREMENT id, which is larger than every earlier id, and indexes its text |
| Db.Database.GetSegments | src-tauri/src/db/mod.rs:182-200 | exactly the session's rows, as a permutation, sorted by non-decreasing start time (test at lines 356-370) |
| Db.Database.DeleteSegments | src-tauri/src/db/mod.rs:202-215 | the matching rows are deleted; the index is left as it was |
| Db.Database.ClearSegments | src-tauri/src/db/mod.rs:202-215 | with `diarized_only` deletes the session's diarized rows, otherwise all its rows |
| Db.Database.ClearLiveSegments | src-tauri/src/commands.rs:279 | deletes the session's live (non-diarized) rows |
| Db.Database.RenameSpeaker | src-tauri/src/db/mod.rs:217-228 | returns the number of rows changed and renames exactly those |
| Db.Database.SearchText | src-tauri/src/db/mod.rs:230-269 | exactly the rows whose text matches, in that session when one is given, sorted by start time (tests at lines 395-416) |
| Db.Database.GetSetting | src-tauri/src/db/mod.rs:273-282 | the stored value iff the key is present, otherwise None |
| Db.Database.SetSetting | src-tauri/src/db/mod.rs:284-291 | the upsert makes the key map to the new value: `get_setting(key)` then returns it, every other key reads back as before, and no other table changes |
| Db.ClearedKeepsIds | src-tauri/src/db/mod.rs:58 | deleting rows keeps ids increasing and within the counter |
| Db.SettingsTest | src-tauri/src/db/mod.rs:433-441 | on a fresh store `get_setting` of an absent key is None; after `set_setting` it reads back the value written, and a second write replaces it |
| Realtime.EncodeLe | src-tauri/src/mistral/realtime.rs:235-239 | the byte loop builds `LeBytes` of the samples |
| Realtime.LeBytesLayout | src-tauri/src/mistral/realtime.rs:236-239 | two bytes per sample; byte 2i is the low byte of sample i, byte 2i+1 its high byte, in two's complement |
| Realtime.SampleRoundTrip | src-tauri/src/mistral/realtime.rs:238 | reading a sample back from its two little-endian bytes gives it back |
| Realtime.DecodeLe | src-tauri/src/mistral/realtime.rs:236-239 | the reference decoder yields one sample per byte pair |
| Realtime.EncodeRoundTrip | src-tauri/src/mistral/realtime.rs:235-240 | decoding the encoded payload gives the samples back |
| Realtime.AwaitStage | src-tauri/src/mistral/realtime.rs:142-168 | the handshake loop (also lines 188-214) returns the spec outcome `StageFrom`: ready at the acknowledgement, or the error for a read error, a server error or the end of the stream |
| Realtime.StageSucceedsIff | src-tauri/src/mistral/realtime.rs:143-168 | a stage succeeds iff some frame acknowledges it and no earlier frame is fatal or an acknowledgement; it resumes right after that frame |
| Realtime.ServerErrorFirst | src-tauri/src/mistral/realtime.rs:154-158 | a server error before the acknowledgement fails the stage with its message (also lines 200-204) |
| Realtime.StageSkips | src-tauri/src/mistral/realtime.rs:146-163 | unparseable, non-text and unrelated frames are skipped |
| Realtime.Connect | src-tauri/src/mistral/realtime.rs:142-214 | `connect_realtime`'s handshake: created, then the `session.update` send, then updated |
| Realtime.ConnectOrder | src-tauri/src/mistral/realtime.rs:142-214 | a successful handshake saw `session.created` strictly before `session.updated`, and the update was sent |
| Realtime.Receive | src-tauri/src/mistral/realtime.rs:265-317 | the receiver loop forwards exactly `Received(frames)` |
| Realtime.ReceivedStops | src-tauri/src/mistral/realtime.rs:266-316 | after a read error, `Done`, a server error or a close, later frames are ignored |
| Realtime.ReceivedAppend | src-tauri/src/mistral/realtime.rs:266-316 | receiving is compositional over frames that do not stop it |
| Realtime.ForwardedShape | src-tauri/src/mistral/realtime.rs:277-311 | a frame forwards at most one event, and none exactly for an unparseable text, `session.*`, a close or a non-text frame; deltas and `Done` keep their text |
| Realtime.ReceivedEndsWith | src-tauri/src/mistral/realtime.rs:266-316 | the forwarded events end with the stopping frame's event |
| Realtime.RunSender | src-tauri/src/mistral/realtime.rs:229-261 | the sender loop attempts exactly the sends of `SentFrom`: one append per chunk, resampled and encoded, up to and including the first failed send, or up to `End` and its one `input_audio.end` |
| Realtime.SentIsPrefix | src-tauri/src/mistral/realtime.rs:245-251 | what is sent is a prefix of what would be sent if every send succeeded |
| Realtime.EndIsLast | src-tauri/src/mistral/realtime.rs:253-258 | only the last message sent can be `input_audio.end` |
| Realtime.NothingAfterEnd | src-tauri/src/mistral/realtime.rs:253-259 | messages after `End` are never sent |
| Realtime.ChunkPayload | src-tauri/src/mistral/realtime.rs:83-86 | at the API rate a chunk goes out unresampled, and its payload decodes back to it |
| Sse.FindBreakFrom | src-tauri/src/mistral/realtime.rs:367 | the first `\n\n` at or after a position, or none |
| Sse.FindBreak | src-tauri/src/mistral/realtime.rs:367 | `buffer.find("\n\n")`: the first break, or none |
| Sse.FindBreakIs | src-tauri/src/mistral/realtime.rs:367 | a break with none before it is the one found |
| Sse.FindBreakExtend | src-tauri/src/mistral/realtime.rs:363-367 | appending text does not move a break that is already there |
| Sse.SplitRoundTrip | src-tauri/src/mistral/realtime.rs:367-369 | the events and the rest joined with `\n\n` give the buffer back; the rest has no break; no event contains one |
| Sse.SplitAppend | src-tauri/src/mistral/realtime.rs:363-369 | splitting buffer + chunk equals splitting the buffer, then splitting its rest + chunk |
| Sse.FindNewline | src-tauri/src/mistral/realtime.rs:371 | the first '\n' from a position |
| Sse.StripData | src-tauri/src/mistral/realtime.rs:372 | `strip_prefix("data: ")` succeeds iff the line starts with it, and the rest is what follows |
| Sse.TrimStart | src-tauri/src/mistral/realtime.rs:373 | removes leading Unicode whitespace |
| Sse.TrimEnd | src-tauri/src/mistral/realtime.rs:373 | removes trailing Unicode whitespace |
| Sse.DoneMarkerExamples | src-tauri/src/mistral/realtime.rs:373 | `[DONE]` is recognised with surrounding whitespace but not with trailing text |
| Sse.ProcessEventsAppend | src-tauri/src/mistral/realtime.rs:367-382 | processing events is compositional and stops at `[DONE]` |
| Sse.ProcessLinesAppend | src-tauri/src/mistral/realtime.rs:371-381 | processing lines is compositional and stops at `[DONE]` |
| Sse.LineKinds | src-tauri/src/mistral/realtime.rs:371-381 | a line without `data: ` is ignored; a `[DONE]` payload ends the stream |
| Sse.StreamIsTextOutcome | src-tauri/src/mistral/realtime.rs:360-385 | the chunk-by-chunk loop computes the outcome of the whole body text |
| Sse.ChunkingIrrelevant | src-tauri/src/mistral/realtime.rs:363-369 | two chunkings of the same body (and failure) give the same events and end |
| Sse.NoBreakNoEvents | src-tauri/src/mistral/realtime.rs:363-385 | a body without a `\n\n` sends nothing and ends as the body did |
| Sse.HandleEvent | src-tauri/src/mistral/realtime.rs:371-381 | the line loop over one event sends exactly `ProcessLines(Lines(event))` |
| Sse.DrainBuffer | src-tauri/src/mistral/realtime.rs:367-382 | the inner loop processes every complete event of the buffer and keeps the rest |
| Sse.TranscribeStream | src-tauri/src/mistral/realtime.rs:360-385 | the whole loop sends and ends as `SseOutcome` of the chunks |
| Sse.SseSendsNoError | src-tauri/src/mistral/realtime.rs:21-23 | when the parser, as `#[serde(skip)]` makes it, never yields `Error`, the stream sends no `Error` event |
| Commands.SampleBuffer.constructor | src-tauri/src/commands.rs:66 | a new recording buffer is empty |
| Commands.SampleBuffer.Extend | src-tauri/src/commands.rs:166-168 | `extend_from_slice` appends the chunk |
| Commands.AudioLoop | src-tauri/src/commands.rs:147-182 | the loop records `CapturedFrom(polls)` into the buffer and forwards `ForwardedFrom(polls)` |
| Commands.ForwardedCarriesCaptured | src-tauri/src/commands.rs:155-171 | the recording is the in-order concatenation of exactly the forwarded chunks |
| Commands.NoEmptyChunk | src-tauri/src/commands.rs:155 | empty chunks are neither recorded nor forwarded |
| Commands.EndOnceLast | src-tauri/src/commands.rs:148-182 | `End` is sent iff the loop ends on a stop or a disconnect, and then only once, as the last message |
| Commands.NothingAfterStop | src-tauri/src/commands.rs:149-151 | after the stop flag or a disconnect, nothing more is recorded or forwarded (also line 177) |
| Commands.App.StartSession | src-tauri/src/commands.rs:20-196 | busy slot: error, no row created. Otherwise a row is created first. An empty API key or a capture failure is then an error that keeps the row. Otherwise the slot holds the new session with an empty buffer |
| Commands.App.StopSession | src-tauri/src/commands.rs:204-235 | empty slot: `Aucune session active`. Another id: error, and that session is put back. Matching id: the slot is emptied, the stop signal sent, and the recording handed on |
| Commands.App.SaveRecording | src-tauri/src/commands.rs:237-260 | a failed WAV write is an error and the store is untouched; otherwise the audio path and then the duration are written |
| Commands.App.StoreLiveEvents | src-tauri/src/commands.rs:104-145 | each segment event is stored as a live row and announced, deltas are shown, and an error is shown and ends the task |
| Commands.App.HandleLiveEvent | src-tauri/src/commands.rs:106-143 | one event of the task: a segment is saved as a live row under the next id and announced, a delta is shown, an error is shown and stops the task, and the other events change nothing |
| Commands.AnnouncedIsStored | src-tauri/src/commands.rs:115-135 | the `transcription-segment` events carry exactly the rows stored, in order |
| Commands.LiveRowsShape | src-tauri/src/commands.rs:117-119 | live rows belong to the session, have no speaker, are not diarized and take consecutive ids |
| Commands.App.ApplyBatchResult | src-tauri/src/commands.rs:270-357 | failure: only `session-error`, store untouched. Success: live rows deleted, one diarized row per response segment in order under the next ids (the counter advances by their number), title and summary saved when the transcript is non-empty and they came back, then `session-complete` |
| Commands.App.SaveDiarizedRows | src-tauri/src/commands.rs:281-290 | the loop appends one diarized row per response segment, in response order, under consecutive new ids, and changes no session or setting |
| Commands.App.SaveTitleAndSummary | src-tauri/src/commands.rs:308-342 | nothing for an empty transcript; otherwise the generated title and the summary are each written only when their request succeeded; segments are untouched |
| Commands.DiarizedRows | src-tauri/src/commands.rs:281-290 | one stored row per response segment |
| Commands.BatchReplacesLive | src-tauri/src/commands.rs:274-291 | afterwards the session's rows are its old diarized rows followed by the new ones in response order, with no live rows left; other sessions are unchanged |
| Commands.SplitLines | src-tauri/src/commands.rs:305 | a reference splitter at '\n' against which the `join("\n")` of line 305 is proved; it always yields at least one piece |
| Commands.SplitJoin | src-tauri/src/commands.rs:304-305 | splitting a `join("\n")` of newline-free lines gives the lines back |
| Commands.JoinSplit | src-tauri/src/commands.rs:304-305 | joining the pieces of a text gives the text back |
| Commands.BatchLines | src-tauri/src/commands.rs:294-303 | one transcript line per response segment |
| Commands.StoredLines | src-tauri/src/commands.rs:418-426 | one transcript line per stored segment |
| Commands.BatchTranscriptLines | src-tauri/src/commands.rs:294-305 | the transcript's i-th line is `speaker: text`, or the bare text without a speaker, for the i-th segment |
| Commands.LlmTranscript | src-tauri/src/commands.rs:418-442 | an error (`Aucune transcription disponible...`) iff the segment transcript and the live text are both empty; otherwise a non-empty text |
| Commands.StoredTranscriptLines | src-tauri/src/commands.rs:418-438 | the text sent to the assistant has one line per stored segment, in order, `speaker: text` or the bare text, followed by the lines of non-empty live text |
| Commands.LiveTextLines | src-tauri/src/commands.rs:430-438 | non-empty live text follows a non-empty transcript after one '\n' and then adds its own lines; with an empty transcript it is the whole text |
| Commands.SafeTitleShape | src-tauri/src/commands.rs:507-511 | sanitising keeps the length, keeps alphanumerics (by `isAlnum`), '-', '_' and ' ' in place, turns every other character into '_', and, as `is_alphanumeric` rejects them, leaves no '/', '\\' or '.' |
| Commands.SafeTitleIdempotent | src-tauri/src/commands.rs:507-511 | sanitising twice is sanitising once |
| Commands.IdPrefix | src-tauri/src/commands.rs:512 | `split('-').next()` is the longest prefix of the id without '-', followed by '-' when shorter than the id |
| Commands.FileNameNoSeparator | src-tauri/src/commands.rs:512 | the file name `safe_title_idprefix.md` contains no '/' when the id has none, so it stays inside the export directory (also line 548) |
| Commands.ExportDir | src-tauri/src/commands.rs:495-504 | the `export_dir` setting when it is set and not empty, otherwise the default directory |
| Commands.App.SetApiKey | src-tauri/src/commands.rs:593-599 | the cached key becomes the new key, which `get_api_key` then returns and the next `start_session` checks; the `api_key` setting is written too, and no other setting, table or the active slot changes |
| Commands.App.SetSetting | src-tauri/src/commands.rs:607-616 | the setting is written and reads back; for `api_key` the cached key is replaced as well, for any other key it is kept; nothing else changes |
| Commands.App.ExportSession | src-tauri/src/commands.rs:465-564 | an unknown format gives `Export X pas encore supporte`; an unknown session is an error; otherwise the directory, the `.md` or `.pdf` file name, and for Markdown exactly `MarkdownDocument` of the session's title, creation time, duration, its segments as `GetSegments` returns them (sorted by start time) and its parsed summary |

## Left out

- Tauri, tokio and the mutexes are left out. Command registration, task spawning, channels, event emission and lock poisoning (`map_err` on `lock()`) are not modelled. The race between the slot check (commands.rs:28) and the slot store (commands.rs:186) is concurrency, so it is left out too.
- The background task's connection failure is left out. When `connect_realtime` fails in `start_session` (commands.rs:81-96), a `session-error` event is emitted; this is not modelled.
- `connect_async` failing is left out (realtime.rs:136-138). So are the request builder and the `eprintln!` logging.
- Floating point is left out:
  - the resample interpolation (realtime.rs:87-101), which is the `interpolate` parameter; only the identity branch at line 84 is modelled;
  - the RMS audio level and its `audio-level` event (commands.rs:157-163);
  - the duration `samples.len() / sample_rate` (commands.rs:245), which is the `duration` parameter of `SaveRecording`.
- Export.TruncSecs: `as u64` truncates the time and sends negative values to 0. Saturation at 2^64 - 1 and NaN are not modelled.
- Segment times are `real`. f64 rounding is not modelled.
- JSON and base64 are left out. Parsing is the `parse` parameter or frames that are already classified. The model keeps the little-endian byte layout, not the base64 text.
- `String::from_utf8_lossy` is applied per chunk (realtime.rs:365). The model treats chunks as already decoded text. So a multi-byte character split across two chunks is not modelled as two replacement characters.
- The HTTP request of `transcribe_stream` and its non-success status error (realtime.rs:329-358) are left out. The model starts at the body stream.
- SQLite I/O and constraint errors are left out, except the one a duplicate session id causes. `Db.Database.SaveSegment` never fails. FTS5 tokenising and `MATCH` are the `matches` parameter.
- Db.Database.ClearLiveSegments is an assumption. commands.rs:279 calls `clear_live_segments`, but db/mod.rs does not define it. The model takes it to delete the session's rows with `is_diarized = 0`.
- `delete_session` (commands.rs:577-583) is left out. db/mod.rs does not define it either.
- Commands.SafeTitle takes `char::is_alphanumeric` as the parameter `isAlnum`. The model only assumes that it accepts exactly the ASCII letters and digits among ASCII characters; which other characters it accepts is left to the parameter.
- Writing files is left out: `save_wav` (audio/store.rs), `export_to_file` and `export_pdf` (the PDF layout), and the `dirs::` default directories, which are the `defaultDir` parameter.
- Commands.App.StartSession takes the session id, the clock stamp of the title and the creation time as parameters (uuid and clock). `startCapture` stands for `AudioCapturer::new(..).start()`.
- Commands.App.StopSession does not model stopping the capture hardware (commands.rs:221).
- Commands.App.ApplyBatchResult takes the batch response, the generated title and the serialised summary as parameters. `transcribe_batch`, `generate_title`, `generate_summary` and `serde_json::to_string` are network or library calls.
- The thin commands are left out: `get_sessions`, `get_session_detail`, `search_text`, `rename_speaker`, `update_session_title`, `get_setting`, `list_input_devices` and `pick_folder`. The first six only forward to the store operations modelled in `Db`. `list_input_devices` and `pick_folder` are system dialogs and devices. The commands that also touch the cached API key (`get_api_key`, `set_api_key`, `set_setting`) are modelled on `App`.
- The network clients are left out: `mistral/chat.rs` and `mistral/batch.rs`. Only the summary and batch-response records are kept.

## Not in the code

The code does not have these features, so the model does not have them either:

- Sessions: there is no session status field (`recording`/`processing`/`ready`/`failed`). A batch failure only emits `session-error`.
- Replacing live segments is not atomic. After a batch success, the live rows are deleted and the diarized rows inserted by separate statements. Diarized rows from an earlier batch are kept.
- Search: `search_text` orders by start time. It returns no ranking and no highlight offsets.
- Retries: there are no retries or backoff. A streaming connection is never reconnected.
- Capture: there is no drop-oldest capture queue.
