/** Records returned by the batch transcription service (mistral/batch.rs);
    the upload itself is not part of this model. */
module Batch {
  import opened Wrappers

  /** One diarized segment of a batch response. */
  datatype TranscriptionSegment = TranscriptionSegment(text: string, start: real, end: real, speakerId: Option<string>)

  /** A whole batch response. */
  datatype TranscriptionResponse = TranscriptionResponse(text: string, segments: seq<TranscriptionSegment>)
}
