# Chunked Whisper transcription: a Dafny model

This project models the core of the Modal Whisper transcription service
(`modal-whisper-service/main.py`). The service downloads a video's audio,
measures its length and transcribes it with Whisper. Audio no longer than the
chunk length (600 seconds by default) is transcribed in one go and Whisper's
segments are passed through. Longer audio is cut into chunks: chunk `i` starts
at `i * chunk_duration`, and there are `int(duration / chunk_duration) + 1` of
them. Each chunk is transcribed in turn. Its segments are moved onto the video's
time line by adding the chunk's start time, and they are appended in chunk
order. The chunk texts are joined with single spaces. The web endpoint answers a
request body without a truthy `video_url` with the error body
`{"error": "video_url is required"}` paired with `400`, before anything is
transcribed.

Modules, one per part of the service:

- `Transcripts` (`transcripts.dfy`): Whisper's results, the service's answer,
  the audio files (the downloaded track or chunk `i`), and `Rebase`, which moves
  one segment by a chunk's start time.
- `ChunkPlan` (`chunk_plan.dfy`): Python's `int()` truncation, the chunk count,
  the plan as a specification function `Plan`, the planning loop
  `PlanChunks` proved equal to it, and the lemmas on the plan's shape and on
  how its windows cover `[0, duration]`.
- `Merge` (`merge.dfy`): the merged segment list and chunk texts as
  specification functions, `" ".join` as `Join`, the nested merge loop
  `MergeChunks` proved equal to them, and the lemmas on length, position,
  order and provenance of merged segments and on the layout of the joined text.
- `Transcriber` (`transcribe.dfy`): the short-audio pass-through, the whole
  `transcribe_video` step as the function `Transcribe` and the method
  `TranscribeVideo`, and end-to-end lemmas.
- `Endpoint` (`endpoint.dfy`): JSON request bodies, Python truthiness, and the
  `video_url` guard of `transcribe_endpoint`.

Modelling choices:

- Durations and timestamps are exact `real`s, not floats. `chunk_duration` is an
  `int` in the source and a positive `nat` here; chunk start times are
  whole seconds.
- Whisper is an oracle, a function from audio file to result. The download
  and the duration probe are replaced by the input `duration`. In the endpoint,
  the oracle `fetch` gives the duration and the Whisper results for each URL.
- Whisper segments carry more keys than the service reads. The model keeps
  only `start`, `end` and `text`, the keys both paths copy into the answer.
- "The request makes no transcription call" is stated as independence: when
  `video_url` is missing or falsy, the response is the same for every `fetch`.
- A comment in the source says the chunks are transcribed in parallel. The
  loop is sequential, and the model follows the loop.
- When `duration` is an exact multiple of the chunk length, the last planned
  chunk starts exactly at `duration` (`ExactMultipleLastChunk`). That chunk's
  audio is empty, but its text still takes part in the join.

## Model

| member | source | states |
|---|---|---|
| `Transcripts.Rebase` | modal-whisper-service/main.py:132-136 | A rebased segment keeps its text and its length `end - start`; start and end both move by exactly the chunk's start time. |
| `ChunkPlan.Truncate` | modal-whisper-service/main.py:104 | Python's `int()` on a float rounds toward zero: for `x >= 0` the result `n` has `n <= x < n + 1`, and for `x < 0` it has `n - 1 < x <= n`. |
| `ChunkPlan.NumChunks` | modal-whisper-service/main.py:104 | For a non-negative duration, `int(duration / chunk_duration) + 1` is the count `n` with `(n-1)*chunk <= duration < n*chunk`. It is at least 2 when `duration > chunk_duration`. |
| `ChunkPlan.PlanChunks` | modal-whisper-service/main.py:103-119 | The planning loop returns exactly `Plan`: `NumChunks` chunks, chunk `i` starting at `i * chunk_duration` and stored in chunk file `i`. |
| `ChunkPlan.PlanShape` | modal-whisper-service/main.py:104-119 | The plan has at least two chunks. The first starts at 0 and each next one `chunk_duration` later. No chunk starts after `duration`, and the last window ends after `duration`. |
| `ChunkPlan.ExactMultipleLastChunk` | modal-whisper-service/main.py:104-107 | When `duration == k * chunk_duration`, there are `k + 1` chunks and the last starts exactly at `duration`. |
| `ChunkPlan.PlanCovers` | modal-whisper-service/main.py:104-119 | Each instant `t` in `[0, duration]` lies in the window `[start, start + chunk_duration)` of exactly one chunk: `int(t / chunk_duration)` is a planned chunk's index, and it is the only chunk whose window holds `t`. |
| `ChunkPlan.PlanCoversSome` | modal-whisper-service/main.py:104-119 | Each instant of `[0, duration]` lies in some chunk's window: the windows cover the audio. |
| `Merge.RebaseAll` | modal-whisper-service/main.py:131-136 | Rebasing a chunk's segments keeps their number and their order, and rebases each one. |
| `Merge.ChunkTexts` | modal-whisper-service/main.py:124-138 | The collected texts are one per chunk, in chunk order, each that chunk's Whisper text. |
| `Merge.MergeChunks` | modal-whisper-service/main.py:123-141 | The nested merge loop returns the specified merged segments (`MergedSegments`) and the space-joined chunk texts. |
| `Merge.MergedLength` | modal-whisper-service/main.py:123-136 | The merged segment list is as long as the sum of the per-chunk segment counts. |
| `Merge.MergedAt` | modal-whisper-service/main.py:126-136 | Segment `j` of chunk `i` is at position `SegmentCount(chunks[..i]) + j` of the merged list, rebased by chunk `i`'s start time. |
| `Merge.CountMonotone` | modal-whisper-service/main.py:126-136 | All positions of an earlier chunk's segments come before the first position of any later chunk's segments. |
| `Merge.MergedOrder` | modal-whisper-service/main.py:126-136 | Segment `(i, j)` comes before segment `(i', j')` exactly when `i < i'`, or when `i == i'` and `j < j'`. |
| `Merge.MergedProvenance` | modal-whisper-service/main.py:123-136 | Each merged position holds some chunk's segment, rebased by that chunk's start time. Nothing else is in the list. |
| `Merge.JoinLength` | modal-whisper-service/main.py:141 | The joined text's length is the total length of the texts plus one for each gap between two of them. |
| `Merge.JoinTextAt` | modal-whisper-service/main.py:141 | Text `i` appears unchanged in the joined text, starting at the lengths of the earlier texts, each plus one. |
| `Merge.JoinSpaceAt` | modal-whisper-service/main.py:141 | Exactly one space follows each text except the last. |
| `Transcriber.PassThrough` | modal-whisper-service/main.py:86-99 | Short audio: the answer keeps Whisper's text and its segments one for one and in order, with the same start, end and text. |
| `Transcriber.TranscribeVideo` | modal-whisper-service/main.py:85-146 | The method's result is `Transcribe`: the pass-through for `duration <= chunk_duration`, and otherwise the plan's merged segments and joined texts. |
| `Transcriber.ShortAudioIsOneChunk` | modal-whisper-service/main.py:86-99 | The short path gives the same answer as merging a single chunk that starts at 0. |
| `Transcriber.ChunkedCounts` | modal-whisper-service/main.py:104-136 | The long path plans `int(duration / chunk_duration) + 1 >= 2` chunks, and its answer has as many segments as all chunks together. |
| `Transcriber.ChunkedSegmentAt` | modal-whisper-service/main.py:126-136 | In the answer, segment `j` of chunk `i` has start and end moved by `i * chunk_duration`, the same text and the same length. It starts at or after `i * chunk_duration` when its local start is not negative. |
| `Transcriber.ChunkedTextLength` | modal-whisper-service/main.py:138-141 | The long path collects one text per planned chunk, and the answer's text is exactly as long as those texts plus one separator between each two: nothing else is added. |
| `Transcriber.ChunkedTextAt` | modal-whisper-service/main.py:138-141 | Chunk `i`'s Whisper text appears unchanged in the answer's text, right after the texts of chunks `0..i-1`, each followed by one character. |
| `Transcriber.ChunkedSpaceAt` | modal-whisper-service/main.py:141 | The character after every chunk text but the last is a single space. |
| `Endpoint.HandleRequest` | modal-whisper-service/main.py:155-166 | The handler returns the error `"video_url is required"` paired with `400` exactly when `video_url` is missing or falsy under Python truthiness; otherwise it returns the transcription of the media behind that value. |
| `Endpoint.MissingUrlSkipsTranscription` | modal-whisper-service/main.py:160-162 | Without a truthy `video_url`, the response is that error paired with `400` whatever the media oracle is, so no transcription takes part. |
| `Endpoint.PresentUrlTranscribes` | modal-whisper-service/main.py:164-166 | With a truthy `video_url`, the response is the transcript of that URL's media with 600-second chunks. |

## Left out

- Downloading the audio with `yt-dlp` (main.py:66-72), probing its duration
  with `ffprobe` (main.py:75-82) and cutting chunks with `ffmpeg`
  (main.py:110-117) are subprocess and file-system I/O. The duration is an
  input, and each chunk's audio is the file the oracle is asked about.
- Whisper model loading and inference (main.py:51, 57, 88, 128) belong to a
  foreign ML library. The model uses an oracle from audio file to result.
- The Modal app, image, GPU, memory and timeout settings and the `.remote`
  call (main.py:18-39, 153-154, 165) are deployment plumbing.
- The exception logging and re-raise (main.py:148-150) and the 500 response
  (main.py:167-168) only arise when an external call fails, and those calls
  are outside the model.
- Floating-point rounding of durations and timestamp sums: the model uses exact
  reals.
- The temporary directory's lifecycle and the `print` logging.
- `chunk_duration <= 0` is excluded by a precondition. The source never checks
  it and divides by it on the long path. The endpoint always uses 600.
- Python's `int()` truncates toward zero while Dafny's `Floor` rounds down.
  `Truncate` models `int()` for both signs, but the long path only divides a
  positive duration, where the two agree.
- Endpoint.HandleRequest: the media oracle `fetch` is total, so every truthy
  `video_url` is modelled as a downloadable URL. That includes non-string values
  such as a number or a list, which the service passes to `yt-dlp`'s argument
  list, where the subprocess call fails and the handler answers with the 500
  error (main.py:66-72, 148-150, 167-168). The model gives such a body a transcript.
- Endpoint.HandleRequest: the model stops at the handler's return value, an
  error body paired with `400` (main.py:162) or with `500` (main.py:168). How
  the web framework behind `@modal.web_endpoint` (main.py:154) turns such a
  pair into an HTTP response, and which status code it actually sends, is not
  part of this model.
