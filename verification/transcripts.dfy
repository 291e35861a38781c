/** The values the transcription service passes around: what Whisper returns
    for one audio file, and the transcript the service hands back. Times are
    seconds, kept exact as `real`. */
module Transcripts {

  /** One segment of a Whisper result, reduced to the keys the service reads. */
  datatype WhisperSegment = WhisperSegment(start: real, end: real, text: string)

  /** The dictionary `model.transcribe` returns: the full text and its segments. */
  datatype WhisperResult = WhisperResult(text: string, segments: seq<WhisperSegment>)

  /** The audio files the service gives to Whisper: the downloaded track
      (`audio.m4a`) or the `i`-th cut chunk (`chunk_{i}.m4a`). */
  datatype AudioFile = Downloaded | ChunkFile(index: nat)

  /** Whisper inference, an oracle: the result it produces for each audio file. */
  type Whisper = AudioFile -> WhisperResult

  /** A segment of the service's answer: times in seconds from the start of the video. */
  datatype Segment = Segment(start: real, end: real, text: string)

  /** The service's answer: `{"text": ..., "segments": [...]}`. */
  datatype Transcript = Transcript(text: string, segments: seq<Segment>)

  /** The answer-shaped copy of a Whisper segment, its time moved by `offset` seconds. */
  function Rebase(s: WhisperSegment, offset: int): (r: Segment)
    ensures r.text == s.text
    ensures r.end - r.start == s.end - s.start
    ensures r.start - s.start == offset as real && r.end - s.end == offset as real
  {
    Segment(s.start + offset as real, s.end + offset as real, s.text)
  }
}
