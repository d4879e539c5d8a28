/** What server/index.js promises about its two routes, proved about the reference
    functions of module Server (which the handlers are proved to compute). */
module ServerProperties {
  import opened Outcomes
  import opened JsText
  import opened Server

  // ---------------------------------------------------------------------------
  // The retry loop

  /** From attempt `k` on, the loop makes attempts up to the first success; every attempt
      before the last one failed; the last one is the answer, unless all `MaxRetries`
      attempts failed, in which case the answer is the exhaustion error. */
  lemma {:induction false} RetryFromShape(download: nat -> Outcome<string>, k: nat)
    requires k < MaxRetries
    ensures var (r, n) := RetryFrom(download, k);
      (forall j :: k <= j < n - 1 ==> download(j).Err?) &&
      (r.Ok? ==> download(n - 1) == r) &&
      (r.Err? ==> n == MaxRetries && download(n - 1).Err? && r.message == DownloadExhausted)
    decreases MaxRetries - k
  {
    if download(k).Err? && k + 1 < MaxRetries {
      RetryFromShape(download, k + 1);
    }
  }

  /** The download is attempted at most 3 times and the loop stops at the first success:
      it ends with a path exactly when one of the first 3 attempts succeeds, and then
      with the path of the first one that does. */
  lemma RetryStopsAtFirstSuccess(download: nat -> Outcome<string>)
    ensures var (r, n) := RetryDownload(download);
      1 <= n <= MaxRetries &&
      (forall j :: 0 <= j < n - 1 ==> download(j).Err?) &&
      (r.Ok? ==> download(n - 1) == r) &&
      (r.Err? ==> n == MaxRetries && download(n - 1).Err? && r.message == DownloadExhausted) &&
      (r.Ok? <==> exists j :: 0 <= j < MaxRetries && download(j).Ok?)
  {
    RetryFromShape(download, 0);
  }

  lemma {:induction false} DownloadsConcat(a: seq<Step>, b: seq<Step>)
    ensures Downloads(a + b) == Downloads(a) + Downloads(b)
    ensures Waits(a + b) == Waits(a) + Waits(b)
  {
    if a != [] {
      DownloadsConcat(a[1..], b);
      assert (a + b)[1..] == a[1..] + b;
    } else {
      assert a + b == b;
    }
  }

  lemma DownloadsOne(s: Step)
    ensures Downloads([s]) == (if s.Download? then [s.attempt] else [])
    ensures Waits([s]) == (if s.Wait? then [s.ms] else [])
  {
    assert [s][1..] == [];
  }

  /** `n` attempts are the attempts 0, 1, ..., n - 1 in order, with exactly `n - 1`
      pauses, all of 2000 ms (constant, so never increasing), and no pause after the last. */
  lemma {:induction false} AttemptStepsShape(n: nat)
    requires n >= 1
    ensures |Downloads(AttemptSteps(n))| == n
    ensures forall j :: 0 <= j < n ==> Downloads(AttemptSteps(n))[j] == j
    ensures |Waits(AttemptSteps(n))| == n - 1
    ensures forall i :: 0 <= i < n - 1 ==> Waits(AttemptSteps(n))[i] == RetryDelayMs
    ensures AttemptSteps(n)[|AttemptSteps(n)| - 1] == Download(n - 1)
  {
    if n > 1 {
      AttemptStepsShape(n - 1);
      AttemptStepsGrow(n);
    } else {
      DownloadsOne(Download(0));
    }
  }

  /** One more attempt adds one pause and one download, in that order. */
  lemma AttemptStepsGrow(n: nat)
    requires n > 1
    ensures Downloads(AttemptSteps(n)) == Downloads(AttemptSteps(n - 1)) + [n - 1]
    ensures Waits(AttemptSteps(n)) == Waits(AttemptSteps(n - 1)) + [RetryDelayMs]
  {
    DownloadsConcat(AttemptSteps(n - 1), [Wait(RetryDelayMs), Download(n - 1)]);
    DownloadsConcat([Wait(RetryDelayMs)], [Download(n - 1)]);
    DownloadsOne(Wait(RetryDelayMs));
    DownloadsOne(Download(n - 1));
    assert [Wait(RetryDelayMs)] + [Download(n - 1)] == [Wait(RetryDelayMs), Download(n - 1)];
  }

  lemma {:induction false} AttemptStepsStart(n: nat)
    requires n >= 1
    ensures |AttemptSteps(n)| >= 1 && AttemptSteps(n)[0] == Download(0)
  {
    if n > 1 { AttemptStepsStart(n - 1); }
  }

  lemma {:induction false} AllAttemptStepsAreRetries(n: nat)
    requires n >= 1
    ensures forall i :: 0 <= i < |AttemptSteps(n)| ==> AttemptSteps(n)[i].Download? || AttemptSteps(n)[i].Wait?
  {
    if n > 1 { AllAttemptStepsAreRetries(n - 1); }
  }

  /** A trace without `Download` or `Wait` steps contributes no attempt and no pause. */
  lemma {:induction false} NoRetrySteps(steps: seq<Step>)
    requires forall i :: 0 <= i < |steps| ==> !steps[i].Download? && !steps[i].Wait?
    ensures Downloads(steps) == [] && Waits(steps) == []
  {
    if steps != [] {
      NoRetrySteps(steps[1..]);
    }
  }

  predicate HasDelete(steps: seq<Step>) {
    exists i :: 0 <= i < |steps| && steps[i].Delete?
  }

  // ---------------------------------------------------------------------------
  // The short-video branch

  /** The three ways the branch ends: the download gives up, ffmpeg fails, or the audio is
      transcribed and the files are cleaned up. */
  lemma ShortVideoOutcomes(env: Env, p: Providers)
    ensures var (r, n) := RetryDownload(p.download);
      var (t, work) := ShortVideoTranscription(env, p);
      (r.Err? ==> t == VideoErrorPrefix + DownloadExhausted && work == AttemptSteps(n)) &&
      (r.Ok? && p.ffmpeg(r.value).Err? ==>
        t == VideoErrorPrefix + p.ffmpeg(r.value).message && work == AttemptSteps(n) + [Extract(r.value)]) &&
      (r.Ok? && p.ffmpeg(r.value).Ok? ==>
        t == TranscribeAudio(env, p, r.value + ".mp3") &&
        work == AttemptSteps(n) + [Extract(r.value), Transcribe(r.value + ".mp3")]
          + CleanupSteps(p, r.value + ".mp3", r.value))
  {
    RetryStopsAtFirstSuccess(p.download);
  }

  /** The branch makes the attempts of the retry loop and no other download or pause. */
  lemma ShortVideoSteps(env: Env, p: Providers)
    ensures var (r, n) := RetryDownload(p.download);
      var work := ShortVideoTranscription(env, p).1;
      Downloads(work) == Downloads(AttemptSteps(n)) && Waits(work) == Waits(AttemptSteps(n))
  {
    var (r, n) := RetryDownload(p.download);
    var tries := AttemptSteps(n);
    ShortVideoOutcomes(env, p);
    if r.Ok? {
      var v := r.value;
      if p.ffmpeg(v).Ok? {
        var a := v + ".mp3";
        var rest := [Extract(v), Transcribe(a)] + CleanupSteps(p, a, v);
        assert rest == if p.unlink(a) then [Extract(v), Transcribe(a), Delete(a), Delete(v)]
          else [Extract(v), Transcribe(a), Delete(a)];
        assert ShortVideoTranscription(env, p).1 == tries + rest;
        TriesThenNoRetries(tries, rest);
      } else {
        TriesThenNoRetries(tries, [Extract(v)]);
      }
    }
  }

  lemma TriesThenNoRetries(tries: seq<Step>, rest: seq<Step>)
    requires forall i :: 0 <= i < |rest| ==> !rest[i].Download? && !rest[i].Wait?
    ensures Downloads(tries + rest) == Downloads(tries) && Waits(tries + rest) == Waits(tries)
  {
    DownloadsConcat(tries, rest);
    NoRetrySteps(rest);
    assert Downloads(tries) + [] == Downloads(tries) && Waits(tries) + [] == Waits(tries);
  }

  /** The branch deletes something exactly when the video was downloaded and converted;
      then the audio file is removed right after the transcription, and the video file
      after it only if that removal succeeded. */
  lemma ShortVideoCleanup(env: Env, p: Providers)
    ensures var (r, n) := RetryDownload(p.download);
      var work := ShortVideoTranscription(env, p).1;
      (HasDelete(work) <==> r.Ok? && p.ffmpeg(r.value).Ok?) &&
      (r.Ok? && p.ffmpeg(r.value).Ok? ==>
        var k := |AttemptSteps(n)| + 2;
        |work| == k + (if p.unlink(r.value + ".mp3") then 2 else 1) &&
        work[k] == Delete(r.value + ".mp3") &&
        (p.unlink(r.value + ".mp3") ==> work[k + 1] == Delete(r.value)))
  {
    var (r, n) := RetryDownload(p.download);
    ShortVideoOutcomes(env, p);
    AllAttemptStepsAreRetries(n);
    var work := ShortVideoTranscription(env, p).1;
    if r.Ok? && p.ffmpeg(r.value).Ok? {
      assert work[|AttemptSteps(n)| + 2] == Delete(r.value + ".mp3");
    }
  }

  // ---------------------------------------------------------------------------
  // The YouTube route

  /** An invalid URL is answered 400 before any metadata fetch or download. */
  lemma InvalidUrlRejectedFirst(url: string, env: Env, p: Providers)
    requires p.isVideoUrl(url) == Ok(false)
    ensures YouTubeRoute(url, env, p) == (Failure(400, InvalidUrlError, None), [])
  {
  }

  /** A URL check that throws (a missing or malformed `url` in the body) is caught by the
      route's outer `catch`: 500 with the thrown message, before anything else happens. */
  lemma UrlCheckThrowIsServerError(url: string, env: Env, p: Providers)
    requires p.isVideoUrl(url).Err?
    ensures YouTubeRoute(url, env, p) == (Failure(500, YouTubeFailure, Some(p.isVideoUrl(url).message)), [])
  {
  }

  /** For a valid URL a metadata failure is the only 500 answer of the route, and nothing else is attempted. */
  lemma MetadataFailureIsServerError(url: string, env: Env, p: Providers)
    requires p.isVideoUrl(url) == Ok(true)
    ensures YouTubeRoute(url, env, p).0.Failure? <==> p.videoInfo(url).Err?
    ensures p.videoInfo(url).Err? ==>
      YouTubeRoute(url, env, p) == (Failure(500, YouTubeFailure, Some(p.videoInfo(url).message)), [FetchInfo])
  {
  }

  /** The trimmed YouTube content is the template body itself whenever the transcription
      ends with a visible character. */
  lemma YouTubeContentExact(title: string, author: string, d: nat, transcription: string)
    requires transcription != [] && !IsJsSpace(transcription[|transcription| - 1])
    ensures YouTubeContent(title, author, d, transcription) == YouTubeContentBody(title, author, d, transcription)
  {
    var body := YouTubeContentBody(title, author, d, transcription);
    assert body[0] == 'T';
    assert body[|body| - 1] == transcription[|transcription| - 1];
    TrimPadded("\n        ", body, "\n      ");
  }

  /** Around the transcription steps the route only adds the metadata fetch before and the
      summarisation of the content after: no download, pause or deletion. */
  lemma AnswerFrame(details: VideoDetails, env: Env, p: Providers, transcription: string, work: seq<Step>)
    ensures var (response, trace) := YouTubeAnswer(details, env, p, transcription, work);
      var content := YouTubeContent(details.title, AuthorName(details), details.durationInSec, transcription);
      response == YouTubeSummary(details.title, AuthorName(details), details.durationInSec,
        GenerateSummary(env, p, content)) &&
      trace == [FetchInfo] + work + [Summarize(content)] &&
      Downloads(trace) == Downloads(work) && Waits(trace) == Waits(work) &&
      (HasDelete(trace) <==> HasDelete(work))
  {
    var content := YouTubeContent(details.title, AuthorName(details), details.durationInSec, transcription);
    Framed(work, content);
  }

  /** The metadata fetch before and one summarisation after leave the attempts, pauses
      and deletions of the steps in between unchanged. */
  lemma Framed(work: seq<Step>, content: string)
    ensures var trace := [FetchInfo] + work + [Summarize(content)];
      Downloads(trace) == Downloads(work) && Waits(trace) == Waits(work) &&
      (HasDelete(trace) <==> HasDelete(work))
  {
    var trace := [FetchInfo] + work + [Summarize(content)];
    DownloadsConcat([FetchInfo] + work, [Summarize(content)]);
    DownloadsConcat([FetchInfo], work);
    DownloadsOne(FetchInfo);
    DownloadsOne(Summarize(content));
    assert Downloads(work) + [] == Downloads(work) && Waits(work) + [] == Waits(work);
    assert forall i :: 0 <= i < |work| ==> trace[i + 1] == work[i];
    if HasDelete(trace) {
      var i :| 0 <= i < |trace| && trace[i].Delete?;
      assert work[i - 1].Delete?;
    }
  }

  /** Duration gate: a video of 600 seconds or more is never downloaded, extracted or
      transcribed; the summary is made from the metadata and the fixed "too long" notice. */
  lemma DurationGate(url: string, env: Env, p: Providers)
    requires p.isVideoUrl(url) == Ok(true) && p.videoInfo(url).Ok?
    requires p.videoInfo(url).value.durationInSec >= MaxDurationSec
    ensures var details := p.videoInfo(url).value;
      var content := YouTubeContentBody(details.title, AuthorName(details), details.durationInSec, TooLongNotice);
      YouTubeRoute(url, env, p) ==
        (YouTubeSummary(details.title, AuthorName(details), details.durationInSec, GenerateSummary(env, p, content)),
         [FetchInfo, Summarize(content)])
  {
    var details := p.videoInfo(url).value;
    LongVideoAnswer(details, env, p);
    assert YouTubeRoute(url, env, p) == YouTubeAnswer(details, env, p, TooLongNotice, []);
  }

  lemma LongVideoAnswer(details: VideoDetails, env: Env, p: Providers)
    ensures var content := YouTubeContentBody(details.title, AuthorName(details), details.durationInSec, TooLongNotice);
      YouTubeAnswer(details, env, p, TooLongNotice, []) ==
        (YouTubeSummary(details.title, AuthorName(details), details.durationInSec, GenerateSummary(env, p, content)),
         [FetchInfo, Summarize(content)])
  {
    var body := YouTubeContentBody(details.title, AuthorName(details), details.durationInSec, TooLongNotice);
    TooLongContent(details.title, AuthorName(details), details.durationInSec);
    assert [FetchInfo] + [] + [Summarize(body)] == [FetchInfo, Summarize(body)];
  }

  lemma TooLongContent(title: string, author: string, d: nat)
    ensures YouTubeContent(title, author, d, TooLongNotice) == YouTubeContentBody(title, author, d, TooLongNotice)
  {
    assert TooLongNotice[|TooLongNotice| - 1] == '.';
    YouTubeContentExact(title, author, d, TooLongNotice);
  }

  /** Below 600 seconds the route starts downloading right after the metadata fetch. */
  lemma ShortVideoIsDownloaded(url: string, env: Env, p: Providers)
    requires p.isVideoUrl(url) == Ok(true) && p.videoInfo(url).Ok?
    requires p.videoInfo(url).value.durationInSec < MaxDurationSec
    ensures |YouTubeRoute(url, env, p).1| >= 2 && YouTubeRoute(url, env, p).1[1] == Download(0)
  {
    var n := RetryDownload(p.download).1;
    AttemptStepsStart(n);
    ShortVideoOutcomes(env, p);
  }

  /** Whatever the providers do, one request makes at most 3 download attempts, numbered
      0, 1, ... in order, and pauses exactly once between two attempts, always 2000 ms. */
  lemma RetriesBounded(url: string, env: Env, p: Providers)
    ensures var trace := YouTubeRoute(url, env, p).1;
      |Downloads(trace)| <= MaxRetries &&
      (forall j :: 0 <= j < |Downloads(trace)| ==> Downloads(trace)[j] == j) &&
      |Waits(trace)| == (if Downloads(trace) == [] then 0 else |Downloads(trace)| - 1) &&
      (forall i :: 0 <= i < |Waits(trace)| ==> Waits(trace)[i] == RetryDelayMs)
  {
    if p.isVideoUrl(url) == Ok(true) && p.videoInfo(url).Ok? {
      var details := p.videoInfo(url).value;
      var (t, work) := VideoTranscription(details, env, p);
      AnswerFrame(details, env, p, t, work);
      if details.durationInSec < MaxDurationSec {
        ShortVideoSteps(env, p);
        AttemptStepsShape(RetryDownload(p.download).1);
      }
    }
  }

  /** A download that fails three times becomes the transcription text
      "Error processing video: Failed to download video after multiple attempts"; a summary
      is still produced and answered with 200, and nothing is deleted. */
  lemma DownloadFailureDegrades(url: string, env: Env, p: Providers)
    requires p.isVideoUrl(url) == Ok(true) && p.videoInfo(url).Ok?
    requires p.videoInfo(url).value.durationInSec < MaxDurationSec
    requires forall j :: 0 <= j < MaxRetries ==> p.download(j).Err?
    ensures YouTubeRoute(url, env, p) ==
      YouTubeAnswer(p.videoInfo(url).value, env, p, VideoErrorPrefix + DownloadExhausted, AttemptSteps(MaxRetries))
    ensures YouTubeRoute(url, env, p).0.YouTubeSummary? && !HasDelete(YouTubeRoute(url, env, p).1)
  {
    var details := p.videoInfo(url).value;
    RetryStopsAtFirstSuccess(p.download);
    ShortVideoOutcomes(env, p);
    ShortVideoCleanup(env, p);
    AnswerFrame(details, env, p, VideoErrorPrefix + DownloadExhausted, AttemptSteps(MaxRetries));
  }

  /** An ffmpeg failure becomes "Error processing video: <message>", a summary is still
      produced, and no file is deleted: the downloaded video stays on disk. */
  lemma ExtractionFailureDegrades(url: string, env: Env, p: Providers)
    requires p.isVideoUrl(url) == Ok(true) && p.videoInfo(url).Ok?
    requires p.videoInfo(url).value.durationInSec < MaxDurationSec
    requires RetryDownload(p.download).0.Ok?
    requires p.ffmpeg(RetryDownload(p.download).0.value).Err?
    ensures var videoPath := RetryDownload(p.download).0.value;
      YouTubeRoute(url, env, p) ==
        YouTubeAnswer(p.videoInfo(url).value, env, p, VideoErrorPrefix + p.ffmpeg(videoPath).message,
          AttemptSteps(RetryDownload(p.download).1) + [Extract(videoPath)])
    ensures YouTubeRoute(url, env, p).0.YouTubeSummary? && !HasDelete(YouTubeRoute(url, env, p).1)
  {
    var details := p.videoInfo(url).value;
    var (t, work) := ShortVideoTranscription(env, p);
    ShortVideoOutcomes(env, p);
    ShortVideoCleanup(env, p);
    AnswerFrame(details, env, p, t, work);
  }

  /** Temporary files are only deleted on the success path: the route deletes something
      exactly when a short video was downloaded and converted; then the audio file is
      removed first, and the video file only if that removal succeeded. */
  lemma CleanupOnlyOnSuccess(url: string, env: Env, p: Providers)
    ensures var trace := YouTubeRoute(url, env, p).1;
      var (r, n) := RetryDownload(p.download);
      HasDelete(trace) <==>
        (p.isVideoUrl(url) == Ok(true) && p.videoInfo(url).Ok? && p.videoInfo(url).value.durationInSec < MaxDurationSec
         && r.Ok? && p.ffmpeg(r.value).Ok?)
  {
    if p.isVideoUrl(url) == Ok(true) && p.videoInfo(url).Ok? {
      var details := p.videoInfo(url).value;
      var (t, work) := VideoTranscription(details, env, p);
      AnswerFrame(details, env, p, t, work);
      if details.durationInSec < MaxDurationSec {
        ShortVideoCleanup(env, p);
      } else {
        assert !HasDelete(work);
      }
    }
  }

  /** Once the metadata is known the route always answers 200 with a summary of the
      content built from the transcription of whichever branch ran: transcription and
      summarisation only degrade, never fail the request. */
  lemma YouTubeAlwaysSummarizes(url: string, env: Env, p: Providers)
    requires p.isVideoUrl(url) == Ok(true) && p.videoInfo(url).Ok?
    ensures var (response, trace) := YouTubeRoute(url, env, p);
      var details := p.videoInfo(url).value;
      var content := YouTubeContent(details.title, AuthorName(details), details.durationInSec,
        VideoTranscription(details, env, p).0);
      response == YouTubeSummary(details.title, AuthorName(details), details.durationInSec,
        GenerateSummary(env, p, content)) &&
      |trace| >= 2 && trace[0] == FetchInfo && trace[|trace| - 1] == Summarize(content)
  {
    var details := p.videoInfo(url).value;
    var (t, work) := VideoTranscription(details, env, p);
    AnswerFrame(details, env, p, t, work);
  }

  // ---------------------------------------------------------------------------
  // The upload route

  /** A request without a file is answered 400 before anything else happens. */
  lemma NoFileRejectedFirst(env: Env, p: Providers)
    ensures UploadRoute(None, env, p) == (Failure(400, NoFileError, None), [])
  {
  }

  /** With a file the route always answers 200 with a summary; the uploaded video is never
      deleted, and the extracted `.mp3` is deleted exactly when the extraction succeeded.
      An ffmpeg failure becomes "Error processing audio: <message>". */
  lemma UploadAlwaysSummarizes(f: UploadedFile, env: Env, p: Providers)
    ensures var (response, trace) := UploadRoute(Some(f), env, p);
      var audio := ExtractAudio(p, f.path);
      var transcription := if audio.Ok? then TranscribeAudio(env, p, audio.value)
        else AudioErrorPrefix + audio.message;
      var content := UploadContent(f, transcription);
      response == VideoSummary(f.filename, f.originalName, GenerateSummary(env, p, content)) &&
      trace[|trace| - 1] == Summarize(content) &&
      Delete(f.path) !in trace &&
      (HasDelete(trace) <==> audio.Ok?) &&
      (audio.Ok? ==>
        trace == [Extract(f.path), Transcribe(f.path + ".mp3"), Delete(f.path + ".mp3"), Summarize(content)]) &&
      (audio.Err? ==> trace == [Extract(f.path), Summarize(content)])
  {
    var (response, trace) := UploadRoute(Some(f), env, p);
    var audio := ExtractAudio(p, f.path);
    if audio.Ok? {
      assert f.path + ".mp3" != f.path by {
        assert |f.path + ".mp3"| != |f.path|;
      }
      assert trace[2] == Delete(f.path + ".mp3");
    }
  }

  // ---------------------------------------------------------------------------
  // The helpers

  /** `transcribeAudio` never throws: a missing or template key gives the fixed notice
      without calling Whisper, a Whisper error gives "Error transcribing audio: <message>". */
  lemma TranscribeAudioDegrades(env: Env, p: Providers, audioPath: string)
    ensures !OpenAiKeyConfigured(env.openAiKey) ==> TranscribeAudio(env, p, audioPath) == OpenAiKeyMissing
    ensures OpenAiKeyConfigured(env.openAiKey) && p.whisper(audioPath).Err? ==>
      TranscribeAudio(env, p, audioPath) == TranscriptionErrorPrefix + p.whisper(audioPath).message
    ensures OpenAiKeyConfigured(env.openAiKey) && p.whisper(audioPath).Ok? ==>
      TranscribeAudio(env, p, audioPath) == p.whisper(audioPath).value
  {
  }

  /** Any OpenAI key that contains the template text anywhere counts as missing. */
  lemma OpenAiTemplateAnywhere(before: string, after: string)
    ensures !OpenAiKeyConfigured(Some(before + OpenAiKeyPlaceholder + after))
  {
    var key := before + OpenAiKeyPlaceholder + after;
    assert key[|before|..|before| + |OpenAiKeyPlaceholder|] == OpenAiKeyPlaceholder;
    IncludesAt(key, OpenAiKeyPlaceholder, |before|);
  }

  /** Exactly the non-empty OpenAI keys holding no copy of the template text count as configured. */
  lemma OpenAiKeyConfiguredIff(key: string)
    ensures OpenAiKeyConfigured(Some(key)) <==>
      key != "" && !exists i: nat :: OccursAt(key, OpenAiKeyPlaceholder, i)
  {
    IncludesIffOccurs(key, OpenAiKeyPlaceholder);
  }

  /** The DeepSeek key, by contrast, only counts as missing when it is exactly the template. */
  lemma DeepSeekTemplateExactly(key: string)
    requires key != "" && key != DeepSeekKeyPlaceholder
    ensures DeepSeekKeyConfigured(Some(key))
  {
  }

  /** Without a usable DeepSeek key the summary is the fixed notice followed by the first
      300 characters of the content (all of it when shorter) and "..."; with a key, a
      provider error gives "Failed to generate summary with DeepSeek API. Error: <message>". */
  lemma SummaryFallbackPreview(env: Env, p: Providers, content: string)
    ensures !DeepSeekKeyConfigured(env.deepSeekKey) ==>
      var r := GenerateSummary(env, p, content);
      var n := if |content| < PreviewLength then |content| else PreviewLength;
      |r| == |DeepSeekKeyMissing| + n + |PreviewEllipsis| &&
      r[..|DeepSeekKeyMissing|] == DeepSeekKeyMissing &&
      r[|DeepSeekKeyMissing|..|DeepSeekKeyMissing| + n] == content[..n] &&
      r[|DeepSeekKeyMissing| + n..] == PreviewEllipsis
    ensures DeepSeekKeyConfigured(env.deepSeekKey) && p.deepseek(content).Err? ==>
      GenerateSummary(env, p, content) == DeepSeekErrorPrefix + p.deepseek(content).message
  {
  }

  /** The preview depends only on the first 300 characters of the content. */
  lemma SummaryFallbackIgnoresTail(env: Env, p: Providers, a: string, b: string)
    requires !DeepSeekKeyConfigured(env.deepSeekKey)
    requires |a| >= PreviewLength && |b| >= PreviewLength && a[..PreviewLength] == b[..PreviewLength]
    ensures GenerateSummary(env, p, a) == GenerateSummary(env, p, b)
  {
  }

  /** The rendered duration reads back as `d`: its minutes and seconds digits are the
      decimal strings of `floor(d / 60)` and `d % 60`, and 60 * minutes + seconds == d. */
  lemma DurationTextReadsBack(d: nat)
    ensures var (m, s) := DurationParts(d);
      DurationText(d) == Decimal(m) + " minutes and " + Decimal(s) + " seconds" &&
      60 * DecimalValue(Decimal(m)) + DecimalValue(Decimal(s)) == d && s < 60
  {
    DecimalRoundTrip(DurationParts(d).0);
    DecimalRoundTrip(DurationParts(d).1);
  }
}
