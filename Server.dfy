/** server/index.js: the two request handlers `/api/summarize-youtube` and
    `/api/summarize-video`, the bounded download retry loop, the duration gate and the
    degrading helpers `transcribeAudio` and `generateSummaryWithDeepSeek`.

    Every outside collaborator is an oracle in `Providers`: URL validation and metadata
    from play-dl, the download, the ffmpeg run, Whisper, DeepSeek and `unlink`. The
    environment variables are `Env`. What the handler does to the world is recorded, in
    order, as a trace of `Step`s; the 2-second pauses appear as `Wait(2000)` steps. */
module Server {
  import opened Outcomes
  import opened JsText

  const MaxRetries: nat := 3
  const RetryDelayMs: nat := 2000
  const MaxDurationSec: nat := 600
  const PreviewLength: nat := 300

  const InvalidUrlError: string := "Invalid YouTube URL"
  const NoFileError: string := "No video file uploaded"
  const YouTubeFailure: string := "Failed to process YouTube video"
  const DownloadExhausted: string := "Failed to download video after multiple attempts"
  const VideoErrorPrefix: string := "Error processing video: "
  const AudioErrorPrefix: string := "Error processing audio: "
  const TooLongNotice: string := "Video is too long for transcription (>10 minutes)."
  const UnknownAuthor: string := "Unknown"
  const OpenAiKeyPlaceholder: string := "your_openai_api_key"
  const OpenAiKeyMissing: string := "OpenAI API key not configured. Please add your API key to the .env file."
  const TranscriptionErrorPrefix: string := "Error transcribing audio: "
  const DeepSeekKeyPlaceholder: string := "your_deepseek_api_key_here"
  const DeepSeekKeyMissing: string :=
    "DeepSeek API key not configured. Please add your API key to the .env file.\n      \n      Here's a preview of the content that would be summarized:\n      "
  const PreviewEllipsis: string := "..."
  const DeepSeekErrorPrefix: string := "Failed to generate summary with DeepSeek API. Error: "

  /** `process.env.OPENAI_API_KEY` and `process.env.DEEPSEEK_API_KEY`; `None` when unset. */
  datatype Env = Env(openAiKey: Option<string>, deepSeekKey: Option<string>)

  /** The fields of play-dl's `video_details` that the handler reads. */
  datatype VideoDetails = VideoDetails(title: string, channelName: Option<string>, durationInSec: nat)

  /** The fields of multer's `req.file` that the handler reads. */
  datatype UploadedFile = UploadedFile(filename: string, path: string, originalName: string, size: nat, mimeType: string)

  datatype Providers = Providers(
    isVideoUrl: string -> Outcome<bool>,        // play.yt_validate(url) === 'video', or what it threw
    videoInfo: string -> Outcome<VideoDetails>, // play.video_info(url)
    download: nat -> Outcome<string>,           // the n-th call (from 0) of downloadYouTubeVideo: the saved path
    ffmpeg: string -> Outcome<()>,              // the ffmpeg run converting a file to `<file>.mp3`
    whisper: string -> Outcome<string>,         // the Whisper transcription of an audio file
    deepseek: string -> Outcome<string>,        // the DeepSeek completion for a content string
    unlink: string -> bool)                     // unlinkAsync(path) resolved (true) or rejected (false)

  /** What the handler does, in order. */
  datatype Step =
    | FetchInfo                 // play.video_info(url)
    | Download(attempt: nat)    // downloadYouTubeVideo(url), attempt number from 0
    | Wait(ms: nat)             // setTimeout before the next attempt
    | Extract(input: string)    // extractAudioFromVideo(input)
    | Transcribe(audio: string) // transcribeAudio(audio)
    | Delete(path: string)      // unlinkAsync(path)
    | Summarize(content: string) // generateSummaryWithDeepSeek(content)

  /** The JSON answer and its status. */
  datatype Response =
    | YouTubeSummary(title: string, author: string, duration: nat, summary: string)   // 200
    | VideoSummary(filename: string, originalName: string, summary: string)          // 200
    | Failure(status: nat, error: string, details: Option<string>)

  // ---------------------------------------------------------------------------
  // Helpers that never throw

  /** The OpenAI key is usable: set, non-empty, and not containing the template text. */
  predicate OpenAiKeyConfigured(key: Option<string>) {
    key.Some? && key.value != "" && !Includes(key.value, OpenAiKeyPlaceholder)
  }

  /** The DeepSeek key is usable: set, non-empty, and not exactly the template text. */
  predicate DeepSeekKeyConfigured(key: Option<string>) {
    key.Some? && key.value != "" && key.value != DeepSeekKeyPlaceholder
  }

  /** `transcribeAudio(audioPath)`: Whisper's text, or an explanatory string. */
  function TranscribeAudio(env: Env, p: Providers, audioPath: string): string
  {
    if !OpenAiKeyConfigured(env.openAiKey) then OpenAiKeyMissing
    else match p.whisper(audioPath)
      case Ok(text) => text
      case Err(message) => TranscriptionErrorPrefix + message
  }

  /** `generateSummaryWithDeepSeek(content)`: DeepSeek's answer, or an explanatory string. */
  function GenerateSummary(env: Env, p: Providers, content: string): string
  {
    if !DeepSeekKeyConfigured(env.deepSeekKey) then
      DeepSeekKeyMissing + Substring0(content, PreviewLength) + PreviewEllipsis
    else match p.deepseek(content)
      case Ok(text) => text
      case Err(message) => DeepSeekErrorPrefix + message
  }

  /** `extractAudioFromVideo(videoPath)`: resolves to `${videoPath}.mp3` once ffmpeg ends. */
  function ExtractAudio(p: Providers, videoPath: string): (audio: Outcome<string>)
    ensures audio.Ok? ==> audio.value == videoPath + ".mp3"
  {
    match p.ffmpeg(videoPath)
    case Ok(_) => Ok(videoPath + ".mp3")
    case Err(message) => Err(message)
  }

  /** `videoDetails.channel?.name || 'Unknown'`. */
  function AuthorName(details: VideoDetails): (author: string)
    ensures author != ""
  {
    match details.channelName
    case Some(name) => if name != "" then name else UnknownAuthor
    case None => UnknownAuthor
  }

  /** `Math.floor(d / 60)` and `d % 60` for a non-negative duration in seconds. */
  function DurationParts(d: nat): (ms: (nat, nat))
    ensures 60 * ms.0 + ms.1 == d && ms.1 < 60
  {
    (d / 60, d % 60)
  }

  function DurationText(d: nat): string
  {
    Decimal(DurationParts(d).0) + " minutes and " + Decimal(DurationParts(d).1) + " seconds"
  }

  /** The body of the YouTube content template, between its leading and trailing padding. */
  function YouTubeContentBody(title: string, author: string, d: nat, transcription: string): string
  {
    "Title: " + title + "\n        Author: " + author + "\n        Duration: " + DurationText(d)
    + "\n        \n        Transcription:\n        " + transcription
  }

  /** The YouTube route's `contentToSummarize`, a template literal passed through `trim()`. */
  function YouTubeContent(title: string, author: string, d: nat, transcription: string): string
  {
    Trim("\n        " + YouTubeContentBody(title, author, d, transcription) + "\n      ")
  }

  /** The upload route's `contentToSummarize`, a template literal used untrimmed. */
  function UploadContent(file: UploadedFile, transcription: string): string
  {
    "\n      Filename: " + file.originalName + "\n      File size: " + Decimal(file.size)
    + " bytes\n      File type: " + file.mimeType + "\n      \n      Transcription:\n      "
    + transcription + "\n    "
  }

  // ---------------------------------------------------------------------------
  // The download retry loop

  /** The retry loop from attempt `k` on: the first successful path, or the
      exhaustion error after attempt `MaxRetries - 1`; and how many attempts were made. */
  function RetryFrom(download: nat -> Outcome<string>, k: nat): (run: (Outcome<string>, nat))
    requires k < MaxRetries
    ensures k < run.1 <= MaxRetries
    decreases MaxRetries - k
  {
    match download(k)
    case Ok(path) => (Ok(path), k + 1)
    case Err(_) =>
      if k + 1 == MaxRetries then (Err(DownloadExhausted), MaxRetries) else RetryFrom(download, k + 1)
  }

  function RetryDownload(download: nat -> Outcome<string>): (run: (Outcome<string>, nat))
    ensures 1 <= run.1 <= MaxRetries
  {
    RetryFrom(download, 0)
  }

  /** The trace of `n` attempts: one `Download` each, with a `Wait` between two attempts. */
  function AttemptSteps(n: nat): seq<Step>
    requires n >= 1
  {
    if n == 1 then [Download(0)] else AttemptSteps(n - 1) + [Wait(RetryDelayMs), Download(n - 1)]
  }

  /** The attempt numbers of the `Download` steps of a trace, in order. */
  function Downloads(steps: seq<Step>): seq<nat>
  {
    if steps == [] then []
    else (if steps[0].Download? then [steps[0].attempt] else []) + Downloads(steps[1..])
  }

  /** The delays of the `Wait` steps of a trace, in order. */
  function Waits(steps: seq<Step>): seq<nat>
  {
    if steps == [] then []
    else (if steps[0].Wait? then [steps[0].ms] else []) + Waits(steps[1..])
  }

  /** The loop `while (retryCount < maxRetries && !videoPath)`. Returns the saved path or
      the exhaustion error, the number of attempts, and the attempts and pauses in order. */
  method DownloadWithRetries(download: nat -> Outcome<string>)
    returns (videoPath: Outcome<string>, attempts: nat, steps: seq<Step>)
    ensures (videoPath, attempts) == RetryDownload(download)
    ensures 1 <= attempts <= MaxRetries && steps == AttemptSteps(attempts)
  {
    var saved: Option<string> := None;
    var retryCount: nat := 0;
    steps := [];
    while retryCount < MaxRetries && saved.None?
      invariant retryCount < MaxRetries
      invariant saved.None? ==> RetryFrom(download, retryCount) == RetryDownload(download)
      invariant saved.None? ==>
        (retryCount == 0 && steps == []) || (retryCount > 0 && steps == AttemptSteps(retryCount) + [Wait(RetryDelayMs)])
      invariant saved.Some? ==>
        RetryDownload(download) == (Ok(saved.value), retryCount + 1) && steps == AttemptSteps(retryCount + 1)
      decreases MaxRetries - retryCount, saved.None?
    {
      steps := steps + [Download(retryCount)];
      match download(retryCount)
      case Ok(path) =>
        saved := Some(path);
      case Err(_) =>
        retryCount := retryCount + 1;
        if retryCount == MaxRetries {
          return Err(DownloadExhausted), MaxRetries, steps;
        }
        steps := steps + [Wait(RetryDelayMs)];
    }
    return Ok(saved.value), retryCount + 1, steps;
  }

  // ---------------------------------------------------------------------------
  // The two routes, as reference functions

  /** The `unlinkAsync(audioPath); unlinkAsync(videoPath)` block: the second removal is
      only tried when the first succeeded, and a failure is swallowed. */
  function CleanupSteps(p: Providers, audioPath: string, videoPath: string): seq<Step>
  {
    [Delete(audioPath)] + (if p.unlink(audioPath) then [Delete(videoPath)] else [])
  }

  /** The `if (videoDuration < 600)` branch: the transcription it leaves, and its steps. */
  function ShortVideoTranscription(env: Env, p: Providers): (string, seq<Step>)
  {
    var (downloaded, attempts) := RetryDownload(p.download);
    var tries := AttemptSteps(attempts);
    match downloaded
    case Err(message) => (VideoErrorPrefix + message, tries)
    case Ok(videoPath) =>
      match ExtractAudio(p, videoPath)
      case Err(message) => (VideoErrorPrefix + message, tries + [Extract(videoPath)])
      case Ok(audioPath) =>
        (TranscribeAudio(env, p, audioPath),
         tries + [Extract(videoPath), Transcribe(audioPath)] + CleanupSteps(p, audioPath, videoPath))
  }

  /** The `if (videoDuration < 600) ... else ...` branch: the transcription it leaves, and its steps. */
  function VideoTranscription(details: VideoDetails, env: Env, p: Providers): (string, seq<Step>)
  {
    if details.durationInSec < MaxDurationSec then ShortVideoTranscription(env, p) else (TooLongNotice, [])
  }

  /** The end of the YouTube route once the transcription is settled: the content template,
      the summary and the 200 answer, after `FetchInfo` and the transcription steps. */
  function YouTubeAnswer(details: VideoDetails, env: Env, p: Providers, transcription: string, work: seq<Step>)
    : (Response, seq<Step>)
  {
    var author := AuthorName(details);
    var content := YouTubeContent(details.title, author, details.durationInSec, transcription);
    (YouTubeSummary(details.title, author, details.durationInSec, GenerateSummary(env, p, content)),
     [FetchInfo] + work + [Summarize(content)])
  }

  /** `POST /api/summarize-youtube` with body `{ url }`. */
  function YouTubeRoute(url: string, env: Env, p: Providers): (Response, seq<Step>)
  {
    match p.isVideoUrl(url)
    case Err(message) => (Failure(500, YouTubeFailure, Some(message)), [])
    case Ok(valid) =>
      if !valid then (Failure(400, InvalidUrlError, None), [])
      else match p.videoInfo(url)
        case Err(message) => (Failure(500, YouTubeFailure, Some(message)), [FetchInfo])
        case Ok(details) =>
          var (transcription, work) := VideoTranscription(details, env, p);
          YouTubeAnswer(details, env, p, transcription, work)
  }

  /** The audio block of the upload route: the transcription it leaves, and its steps. */
  function UploadTranscription(env: Env, p: Providers, f: UploadedFile): (string, seq<Step>)
  {
    match ExtractAudio(p, f.path)
    case Err(message) => (AudioErrorPrefix + message, [Extract(f.path)])
    case Ok(audioPath) =>
      (TranscribeAudio(env, p, audioPath), [Extract(f.path), Transcribe(audioPath), Delete(audioPath)])
  }

  /** The end of the upload route: the content template, the summary and the 200 answer. */
  function UploadAnswer(f: UploadedFile, env: Env, p: Providers, transcription: string, work: seq<Step>)
    : (Response, seq<Step>)
  {
    var content := UploadContent(f, transcription);
    (VideoSummary(f.filename, f.originalName, GenerateSummary(env, p, content)), work + [Summarize(content)])
  }

  /** `POST /api/summarize-video` with an optional multipart file. */
  function UploadRoute(file: Option<UploadedFile>, env: Env, p: Providers): (Response, seq<Step>)
  {
    match file
    case None => (Failure(400, NoFileError, None), [])
    case Some(f) =>
      var (transcription, work) := UploadTranscription(env, p, f);
      UploadAnswer(f, env, p, transcription, work)
  }

  // ---------------------------------------------------------------------------
  // The two handlers

  /** The `try` block run for a video under ten minutes: download with retries, extract,
      transcribe, clean up; any rejection on the way becomes the transcription text. */
  method ProcessShortVideo(env: Env, p: Providers) returns (transcription: string, steps: seq<Step>)
    ensures (transcription, steps) == ShortVideoTranscription(env, p)
  {
    var downloaded, attempts, tries := DownloadWithRetries(p.download);
    steps := tries;
    if downloaded.Err? {
      transcription := VideoErrorPrefix + downloaded.message;
      return;
    }
    var videoPath := downloaded.value;
    steps := steps + [Extract(videoPath)];
    var audio := ExtractAudio(p, videoPath);
    if audio.Err? {
      transcription := VideoErrorPrefix + audio.message;
      return;
    }
    var audioPath := audio.value;
    steps := steps + [Transcribe(audioPath)];
    transcription := TranscribeAudio(env, p, audioPath);
    steps := steps + [Delete(audioPath)];
    if p.unlink(audioPath) {
      steps := steps + [Delete(videoPath)];
    }
    assert steps == tries + [Extract(videoPath), Transcribe(audioPath)] + CleanupSteps(p, audioPath, videoPath);
  }

  /** The `/api/summarize-youtube` handler; `transcription` is reassigned along each branch. */
  method HandleYouTube(url: string, env: Env, p: Providers) returns (response: Response, trace: seq<Step>)
    ensures (response, trace) == YouTubeRoute(url, env, p)
  {
    var valid := p.isVideoUrl(url);
    if valid.Err? {
      // A throwing URL check lands in the outer `catch`.
      return Failure(500, YouTubeFailure, Some(valid.message)), [];
    }
    if !valid.value {
      return Failure(400, InvalidUrlError, None), [];
    }
    var info := p.videoInfo(url);
    if info.Err? {
      return Failure(500, YouTubeFailure, Some(info.message)), [FetchInfo];
    }
    var details := info.value;
    var transcription := "";
    var work: seq<Step> := [];
    if details.durationInSec < MaxDurationSec {
      transcription, work := ProcessShortVideo(env, p);
    } else {
      transcription := TooLongNotice;
    }
    var author := AuthorName(details);
    var content := YouTubeContent(details.title, author, details.durationInSec, transcription);
    trace := [FetchInfo] + work + [Summarize(content)];
    var summary := GenerateSummary(env, p, content);
    response := YouTubeSummary(details.title, author, details.durationInSec, summary);
  }

  /** The `/api/summarize-video` handler. */
  method HandleUpload(file: Option<UploadedFile>, env: Env, p: Providers) returns (response: Response, trace: seq<Step>)
    ensures (response, trace) == UploadRoute(file, env, p)
  {
    if file.None? {
      return Failure(400, NoFileError, None), [];
    }
    var f := file.value;
    var transcription := "";
    trace := [Extract(f.path)];
    var audio := ExtractAudio(p, f.path);
    if audio.Ok? {
      trace := trace + [Transcribe(audio.value)];
      transcription := TranscribeAudio(env, p, audio.value);
      trace := trace + [Delete(audio.value)];
      assert trace == [Extract(f.path), Transcribe(audio.value), Delete(audio.value)];
    } else {
      transcription := AudioErrorPrefix + audio.message;
    }
    assert (transcription, trace) == UploadTranscription(env, p, f);
    var content := UploadContent(f, transcription);
    trace := trace + [Summarize(content)];
    var summary := GenerateSummary(env, p, content);
    response := VideoSummary(f.filename, f.originalName, summary);
  }
}
