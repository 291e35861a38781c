/** Merging the per-chunk Whisper results into one transcript: segments are
    moved onto the video's time line and appended in chunk order, and the
    chunk texts are joined with single spaces. */
module Merge {
  import opened Transcripts
  import opened ChunkPlan

  /** The segments of `segs`, each moved by `offset` seconds, in their order. */
  function RebaseAll(segs: seq<WhisperSegment>, offset: int): (r: seq<Segment>)
    ensures |r| == |segs|
    ensures forall j :: 0 <= j < |segs| ==> r[j] == Rebase(segs[j], offset)
  {
    if segs == [] then [] else RebaseAll(segs[..|segs| - 1], offset) + [Rebase(segs[|segs| - 1], offset)]
  }

  /** What `all_segments` holds after the chunks `chunks` have been processed:
      each chunk's Whisper segments, rebased by the chunk's start, chunk after chunk. */
  function MergedSegments(chunks: seq<Chunk>, whisper: Whisper): seq<Segment>
  {
    if chunks == [] then []
    else
      var last := chunks[|chunks| - 1];
      MergedSegments(chunks[..|chunks| - 1], whisper) + RebaseAll(whisper(last.file).segments, last.startTime)
  }

  /** What `full_text` holds after the chunks `chunks` have been processed. */
  function ChunkTexts(chunks: seq<Chunk>, whisper: Whisper): (r: seq<string>)
    ensures |r| == |chunks|
    ensures forall i :: 0 <= i < |chunks| ==> r[i] == whisper(chunks[i].file).text
  {
    if chunks == [] then [] else ChunkTexts(chunks[..|chunks| - 1], whisper) + [whisper(chunks[|chunks| - 1].file).text]
  }

  /** Python's `" ".join(texts)`. */
  function Join(texts: seq<string>): string
  {
    if |texts| == 0 then ""
    else if |texts| == 1 then texts[0]
    else Join(texts[..|texts| - 1]) + " " + texts[|texts| - 1]
  }

  /** The total number of Whisper segments over `chunks`. */
  function SegmentCount(chunks: seq<Chunk>, whisper: Whisper): nat
  {
    if chunks == [] then 0
    else SegmentCount(chunks[..|chunks| - 1], whisper) + |whisper(chunks[|chunks| - 1].file).segments|
  }

  /** Where the text `texts[i]` begins in `Join(texts)`: the lengths of the
      texts before it, each followed by one space. */
  function TextOffset(texts: seq<string>, i: nat): nat
    requires i <= |texts|
  {
    if i == 0 then 0 else TextOffset(texts, i - 1) + |texts[i - 1]| + 1
  }

  /** The merge loop: for each chunk in order, transcribe it, append its
      rebased segments to `all_segments` and its text to `full_text`; then join. */
  method MergeChunks(chunks: seq<Chunk>, whisper: Whisper) returns (out: Transcript)
    ensures out.segments == MergedSegments(chunks, whisper)
    ensures out.text == Join(ChunkTexts(chunks, whisper))
  {
    var allSegments: seq<Segment> := [];
    var fullText: seq<string> := [];
    var k := 0;
    while k < |chunks|
      invariant 0 <= k <= |chunks|
      invariant allSegments == MergedSegments(chunks[..k], whisper)
      invariant fullText == ChunkTexts(chunks[..k], whisper)
    {
      var chunk := chunks[k];
      var result := whisper(chunk.file);
      ghost var before := allSegments;
      var j := 0;
      while j < |result.segments|
        invariant 0 <= j <= |result.segments|
        invariant allSegments == before + RebaseAll(result.segments[..j], chunk.startTime)
      {
        var seg := result.segments[j];
        allSegments := allSegments + [Segment(seg.start + chunk.startTime as real, seg.end + chunk.startTime as real, seg.text)];
        assert result.segments[..j + 1][..j] == result.segments[..j];
        j := j + 1;
      }
      assert result.segments[..j] == result.segments;
      assert chunks[..k + 1][..k] == chunks[..k];
      assert MergedSegments(chunks[..k + 1], whisper) == before + RebaseAll(result.segments, chunk.startTime);
      fullText := fullText + [result.text];
      k := k + 1;
    }
    assert chunks[..k] == chunks;
    out := Transcript(Join(fullText), allSegments);
  }

  /** The merged list holds exactly the chunks' segments: its length is the
      sum of the per-chunk segment counts. */
  lemma {:induction false} MergedLength(chunks: seq<Chunk>, whisper: Whisper)
    ensures |MergedSegments(chunks, whisper)| == SegmentCount(chunks, whisper)
  {
    if chunks != [] {
      MergedLength(chunks[..|chunks| - 1], whisper);
    }
  }

  /** Segment `j` of chunk `i` sits at position `SegmentCount(chunks[..i]) + j`
      of the merged list, rebased by chunk `i`'s start time. */
  lemma {:induction false} MergedAt(chunks: seq<Chunk>, whisper: Whisper, i: nat, j: nat)
    requires i < |chunks| && j < |whisper(chunks[i].file).segments|
    ensures SegmentCount(chunks[..i], whisper) + j < |MergedSegments(chunks, whisper)|
    ensures MergedSegments(chunks, whisper)[SegmentCount(chunks[..i], whisper) + j]
         == Rebase(whisper(chunks[i].file).segments[j], chunks[i].startTime)
  {
    var n := |chunks|;
    var front := chunks[..n - 1];
    MergedLength(front, whisper);
    if i < n - 1 {
      assert front[..i] == chunks[..i];
      MergedAt(front, whisper, i, j);
      MergedLength(chunks, whisper);
    } else {
      assert chunks[..i] == front;
    }
  }

  /** Chunk blocks follow one another: every segment of an earlier chunk comes
      before every segment of a later one. */
  lemma {:induction false} CountMonotone(chunks: seq<Chunk>, whisper: Whisper, i: nat, i': nat)
    requires i < i' <= |chunks|
    ensures SegmentCount(chunks[..i], whisper) + |whisper(chunks[i].file).segments| <= SegmentCount(chunks[..i'], whisper)
  {
    if i' == i + 1 {
      assert chunks[..i'][..i] == chunks[..i];
    } else {
      CountMonotone(chunks, whisper, i, i' - 1);
      assert chunks[..i'][..i' - 1] == chunks[..i' - 1];
    }
  }

  /** The merge keeps order: segment `(i, j)` precedes segment `(i', j')` in the
      merged list exactly when chunk `i` precedes chunk `i'`, or they are the
      same chunk and `j` precedes `j'`. */
  lemma MergedOrder(chunks: seq<Chunk>, whisper: Whisper, i: nat, j: nat, i': nat, j': nat)
    requires i < |chunks| && j < |whisper(chunks[i].file).segments|
    requires i' < |chunks| && j' < |whisper(chunks[i'].file).segments|
    ensures SegmentCount(chunks[..i], whisper) + j < SegmentCount(chunks[..i'], whisper) + j'
        <==> i < i' || (i == i' && j < j')
  {
    if i < i' {
      CountMonotone(chunks, whisper, i, i');
    } else if i' < i {
      CountMonotone(chunks, whisper, i', i);
    }
  }

  /** Nothing else is in the merged list: every position holds some segment
      `j` of some chunk `i`, rebased by that chunk's start time. */
  lemma {:induction false} MergedProvenance(chunks: seq<Chunk>, whisper: Whisper, p: nat)
    requires p < |MergedSegments(chunks, whisper)|
    ensures exists i, j ::
      && 0 <= i < |chunks| && 0 <= j < |whisper(chunks[i].file).segments|
      && p == SegmentCount(chunks[..i], whisper) + j
      && MergedSegments(chunks, whisper)[p] == Rebase(whisper(chunks[i].file).segments[j], chunks[i].startTime)
  {
    var n := |chunks|;
    var front := chunks[..n - 1];
    MergedLength(front, whisper);
    if p < SegmentCount(front, whisper) {
      MergedProvenance(front, whisper, p);
      var i, j :| 0 <= i < |front| && 0 <= j < |whisper(front[i].file).segments|
        && p == SegmentCount(front[..i], whisper) + j
        && MergedSegments(front, whisper)[p] == Rebase(whisper(front[i].file).segments[j], front[i].startTime);
      assert front[..i] == chunks[..i];
      assert MergedSegments(chunks, whisper)[p] == MergedSegments(front, whisper)[p];
    } else {
      var j := p - SegmentCount(front, whisper);
      assert chunks[..n - 1] == front;
      MergedAt(chunks, whisper, n - 1, j);
    }
  }

  /** The joined text is the texts plus one space between each two of them. */
  lemma {:induction false} JoinLength(texts: seq<string>)
    requires |texts| > 0
    ensures |Join(texts)| == TextOffset(texts, |texts|) - 1
  {
    var n := |texts|;
    if n > 1 {
      var front := texts[..n - 1];
      JoinLength(front);
      TextOffsetAgree(texts, front, n - 1);
    }
  }

  /** Text `i` appears unchanged in `Join(texts)`, starting at `TextOffset(texts, i)`. */
  lemma {:induction false} JoinTextAt(texts: seq<string>, i: nat)
    requires i < |texts|
    ensures TextOffset(texts, i) + |texts[i]| <= |Join(texts)|
    ensures Join(texts)[TextOffset(texts, i)..TextOffset(texts, i) + |texts[i]|] == texts[i]
  {
    var n := |texts|;
    if n > 1 {
      var front := texts[..n - 1];
      var jf := Join(front);
      assert Join(texts) == jf + " " + texts[n - 1];
      JoinLength(front);
      TextOffsetAgree(texts, front, n - 1);
      if i < n - 1 {
        JoinTextAt(front, i);
        TextOffsetAgree(texts, front, i);
        assert front[i] == texts[i];
        var lo := TextOffset(texts, i);
        assert lo + |texts[i]| <= |jf|;
        assert Join(texts)[lo..lo + |texts[i]|] == jf[lo..lo + |texts[i]|];
      }
    }
  }

  /** A single space follows every text but the last in `Join(texts)`. */
  lemma {:induction false} JoinSpaceAt(texts: seq<string>, i: nat)
    requires i + 1 < |texts|
    ensures TextOffset(texts, i) + |texts[i]| < |Join(texts)|
    ensures Join(texts)[TextOffset(texts, i) + |texts[i]|] == ' '
  {
    var n := |texts|;
    var front := texts[..n - 1];
    var jf := Join(front);
    assert Join(texts) == jf + " " + texts[n - 1];
    JoinLength(front);
    JoinLength(texts);
    TextOffsetAgree(texts, front, n - 1);
    if i + 1 < n - 1 {
      JoinSpaceAt(front, i);
      TextOffsetAgree(texts, front, i);
      assert front[i] == texts[i];
    }
  }

  /** Offsets depend only on the texts before them. */
  lemma {:induction false} TextOffsetAgree(texts: seq<string>, front: seq<string>, k: nat)
    requires k <= |front| <= |texts| && front == texts[..|front|]
    ensures TextOffset(front, k) == TextOffset(texts, k)
  {
    if k > 0 {
      TextOffsetAgree(texts, front, k - 1);
    }
  }
}
