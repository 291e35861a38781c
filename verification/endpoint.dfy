/** `transcribe_endpoint`: the POST handler that checks the request body and
    runs the transcription with the default chunk length. */
module Endpoint {
  import opened Transcripts
  import opened Transcriber

  /** A JSON value, as the request body's fields arrive. */
  datatype Json =
    | JNull
    | JBool(b: bool)
    | JNumber(n: real)
    | JString(s: string)
    | JArray(items: seq<Json>)
    | JObject(fields: map<string, Json>)

  /** Python truthiness of a decoded JSON value: `None`, `False`, zero and
      empty strings, lists and dicts are false. */
  predicate Truthy(v: Json)
  {
    match v
    case JNull => false
    case JBool(b) => b
    case JNumber(n) => n != 0.0
    case JString(s) => s != ""
    case JArray(items) => items != []
    case JObject(fields) => fields != map[]
  }

  /** `item.get(key)`: the value, or `None` when the key is missing. */
  function Get(item: map<string, Json>, key: string): Json
  {
    if key in item then item[key] else JNull
  }

  /** What the download and the duration probe yield for a URL: the audio's
      length, and what Whisper makes of the audio files cut from it. */
  datatype Media = Media(duration: real, whisper: Whisper)

  /** The handler's return value: a transcript, or an error body paired with
      the status code the handler names (`({"error": ...}, 400)`). */
  datatype Response = Ok(body: Transcript) | Error(message: string, status: nat)

  const VideoUrlRequired: string := "video_url is required"

  /** The handler: reject a body without a truthy `video_url`, otherwise
      transcribe the media behind it with ten-minute chunks. */
  function HandleRequest(item: map<string, Json>, fetch: Json -> Media): (r: Response)
    ensures r.Error? <==> !Truthy(Get(item, "video_url"))
    ensures r.Error? ==> r.message == VideoUrlRequired && r.status == 400
  {
    var videoUrl := Get(item, "video_url");
    if !Truthy(videoUrl) then
      Error(VideoUrlRequired, 400)
    else
      var media := fetch(videoUrl);
      Ok(Transcribe(media.duration, DefaultChunkDuration, media.whisper))
  }

  /** A body without a truthy `video_url` is rejected before any transcription: the
      answer is the same whatever the media behind any URL would be. */
  lemma MissingUrlSkipsTranscription(item: map<string, Json>, fetch1: Json -> Media, fetch2: Json -> Media)
    requires "video_url" !in item || !Truthy(item["video_url"])
    ensures HandleRequest(item, fetch1) == HandleRequest(item, fetch2) == Error(VideoUrlRequired, 400)
  {
  }

  /** A body with a truthy `video_url` is transcribed from that URL's media,
      with the default chunk length. */
  lemma PresentUrlTranscribes(item: map<string, Json>, fetch: Json -> Media)
    requires "video_url" in item && Truthy(item["video_url"])
    ensures var media := fetch(item["video_url"]);
      HandleRequest(item, fetch) == Ok(Transcribe(media.duration, 600, media.whisper))
  {
  }
}
