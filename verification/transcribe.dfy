/** `transcribe_video`: transcribe short audio in one go, long audio chunk by
    chunk, and put the chunk results back on the video's time line. The
    download and the duration probe are outside the model: `duration` is an
    input, and Whisper is the oracle `whisper`. */
module Transcriber {
  import opened Transcripts
  import opened ChunkPlan
  import opened Merge

  /** The chunk length the web endpoint uses: ten minutes. */
  const DefaultChunkDuration: nat := 600

  /** The short-audio answer: Whisper's text, and its segments one for one,
      each reduced to `start`, `end` and `text`. */
  function PassThrough(result: WhisperResult): (t: Transcript)
    ensures t.text == result.text && |t.segments| == |result.segments|
    ensures forall i :: 0 <= i < |result.segments| ==>
      && t.segments[i].start == result.segments[i].start
      && t.segments[i].end == result.segments[i].end
      && t.segments[i].text == result.segments[i].text
  {
    var segs := result.segments;
    Transcript(result.text, seq(|segs|, i requires 0 <= i < |segs| => Segment(segs[i].start, segs[i].end, segs[i].text)))
  }

  /** What `transcribe_video` returns for audio of length `duration`. */
  function Transcribe(duration: real, chunkDuration: nat, whisper: Whisper): Transcript
    requires chunkDuration > 0
  {
    if duration <= chunkDuration as real then
      PassThrough(whisper(Downloaded))
    else
      var plan := Plan(duration, chunkDuration);
      Transcript(Join(ChunkTexts(plan, whisper)), MergedSegments(plan, whisper))
  }

  /** The body of `transcribe_video` once the audio is downloaded and probed. */
  method TranscribeVideo(duration: real, chunkDuration: nat, whisper: Whisper) returns (out: Transcript)
    requires chunkDuration > 0
    ensures out == Transcribe(duration, chunkDuration, whisper)
  {
    if duration <= chunkDuration as real {
      var result := whisper(Downloaded);
      return PassThrough(result);
    }
    var chunks := PlanChunks(duration, chunkDuration);
    out := MergeChunks(chunks, whisper);
  }

  /** Short audio is the one-chunk case of the merge: a single chunk of the
      whole file starting at 0 gives the same text and the same segments. */
  lemma ShortAudioIsOneChunk(duration: real, chunkDuration: nat, whisper: Whisper)
    requires 0 < chunkDuration && duration <= chunkDuration as real
    ensures var one := [Chunk(0, Downloaded)];
      Transcribe(duration, chunkDuration, whisper)
        == Transcript(Join(ChunkTexts(one, whisper)), MergedSegments(one, whisper))
  {
    var one := [Chunk(0, Downloaded)];
    var result := whisper(Downloaded);
    assert one[..0] == [];
    var merged := MergedSegments(one, whisper);
    assert merged == RebaseAll(result.segments, 0);
    assert PassThrough(result).segments == merged;
  }

  /** The long path plans `int(duration / chunk_duration) + 1` chunks, at least
      two, and its segment list holds exactly their segments. */
  lemma ChunkedCounts(duration: real, chunkDuration: nat, whisper: Whisper)
    requires 0 < chunkDuration && chunkDuration as real < duration
    ensures var plan := Plan(duration, chunkDuration);
      && |plan| == Truncate(duration / chunkDuration as real) + 1 >= 2
      && |Transcribe(duration, chunkDuration, whisper).segments| == SegmentCount(plan, whisper)
  {
    MergedLength(Plan(duration, chunkDuration), whisper);
  }

  /** Segment `j` of chunk `i` appears in the answer at position
      `SegmentCount(plan[..i]) + j`, with `i * chunk_duration` added to its
      start and end and its text unchanged: its length is kept, and it starts
      no earlier than its chunk when its chunk-local start is not negative. */
  lemma ChunkedSegmentAt(duration: real, chunkDuration: nat, whisper: Whisper, i: nat, j: nat)
    requires 0 < chunkDuration && chunkDuration as real < duration
    requires i < NumChunks(duration, chunkDuration)
    requires j < |whisper(ChunkFile(i)).segments|
    ensures var plan := Plan(duration, chunkDuration);
      var out := Transcribe(duration, chunkDuration, whisper);
      var local := whisper(ChunkFile(i)).segments[j];
      var p := SegmentCount(plan[..i], whisper) + j;
      && p < |out.segments|
      && out.segments[p].start == local.start + (i * chunkDuration) as real
      && out.segments[p].end == local.end + (i * chunkDuration) as real
      && out.segments[p].text == local.text
      && out.segments[p].end - out.segments[p].start == local.end - local.start
      && (0.0 <= local.start ==> (i * chunkDuration) as real <= out.segments[p].start)
  {
    var plan := Plan(duration, chunkDuration);
    assert plan[i] == Chunk(i * chunkDuration, ChunkFile(i));
    MergedAt(plan, whisper, i, j);
  }

  /** The answer's text holds one text per chunk plus one space between each
      two, and nothing else: its length is `TextOffset(texts, |texts|) - 1`. */
  lemma ChunkedTextLength(duration: real, chunkDuration: nat, whisper: Whisper)
    requires 0 < chunkDuration && chunkDuration as real < duration
    ensures var texts := ChunkTexts(Plan(duration, chunkDuration), whisper);
      && |texts| == NumChunks(duration, chunkDuration)
      && |Transcribe(duration, chunkDuration, whisper).text| == TextOffset(texts, |texts|) - 1
  {
    var texts := ChunkTexts(Plan(duration, chunkDuration), whisper);
    LongAudioText(duration, chunkDuration, whisper);
    JoinLength(texts);
  }

  /** Chunk `i`'s Whisper text appears unchanged in the answer's text,
      starting at `TextOffset(texts, i)`, after the earlier chunks' texts. */
  lemma ChunkedTextAt(duration: real, chunkDuration: nat, whisper: Whisper, i: nat)
    requires 0 < chunkDuration && chunkDuration as real < duration
    requires i < NumChunks(duration, chunkDuration)
    ensures var texts := ChunkTexts(Plan(duration, chunkDuration), whisper);
      var text := Transcribe(duration, chunkDuration, whisper).text;
      var at := TextOffset(texts, i);
      var t := whisper(ChunkFile(i)).text;
      at + |t| <= |text| && text[at..at + |t|] == t
  {
    var texts := ChunkTexts(Plan(duration, chunkDuration), whisper);
    PlanFileAt(duration, chunkDuration, i);
    assert texts[i] == whisper(ChunkFile(i)).text;
    LongAudioText(duration, chunkDuration, whisper);
    JoinTextAt(texts, i);
  }

  /** A single space follows the text of every chunk but the last. */
  lemma ChunkedSpaceAt(duration: real, chunkDuration: nat, whisper: Whisper, i: nat)
    requires 0 < chunkDuration && chunkDuration as real < duration
    requires i + 1 < NumChunks(duration, chunkDuration)
    ensures var texts := ChunkTexts(Plan(duration, chunkDuration), whisper);
      var text := Transcribe(duration, chunkDuration, whisper).text;
      var at := TextOffset(texts, i);
      var t := whisper(ChunkFile(i)).text;
      at + |t| < |text| && text[at + |t|] == ' '
  {
    var texts := ChunkTexts(Plan(duration, chunkDuration), whisper);
    PlanFileAt(duration, chunkDuration, i);
    var text := Transcribe(duration, chunkDuration, whisper).text;
    assert |texts[i]| == |whisper(ChunkFile(i)).text|;
    LongAudioText(duration, chunkDuration, whisper);
    JoinSpaceAt(texts, i);
    assert text == Join(texts);
  }

  /** On the long path the answer's text is the joined chunk texts of the plan. */
  lemma LongAudioText(duration: real, chunkDuration: nat, whisper: Whisper)
    requires 0 < chunkDuration && chunkDuration as real < duration
    ensures Transcribe(duration, chunkDuration, whisper).text
         == Join(ChunkTexts(Plan(duration, chunkDuration), whisper))
  {
  }

  /** Chunk `i` of the plan is transcribed from chunk file `i`. */
  lemma PlanFileAt(duration: real, chunkDuration: nat, i: nat)
    requires 0 < chunkDuration && chunkDuration as real < duration
    requires i < NumChunks(duration, chunkDuration)
    ensures |Plan(duration, chunkDuration)| == NumChunks(duration, chunkDuration)
    ensures Plan(duration, chunkDuration)[i].file == ChunkFile(i)
  {
  }
}
