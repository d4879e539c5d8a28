# Video and subtitle summariser: chunked summarisation and the request pipeline

This project models the two pieces of logic in the summariser repository.

- `summarize.py`: `summarize_text` splits cleaned subtitle text into words. Its nested
  `chunk_text` cuts the words into consecutive chunks of at most 500 words. Each chunk is
  summarised in order. A chunk whose summariser call raises becomes the fixed placeholder
  "Error summarizing this part.". The results are joined with a blank line. Blank input
  gets "No summary available.".
- `server/index.js`: the two Express handlers `POST /api/summarize-youtube` and
  `POST /api/summarize-video`. The model covers the early 400 answers, the download retry
  loop (at most 3 attempts, a constant 2000 ms pause between them), the 600-second
  duration gate, the minutes-and-seconds rendering of the duration, the content templates,
  and the "degrade, never throw" helpers `transcribeAudio` and
  `generateSummaryWithDeepSeek`.

Files:

- `Outcomes.dfy`: `Option` and `Outcome` (a value, or a failure message).
- `PyText.dfy`: the Python built-ins used by `summarize.py`: `str.isspace`, `str.strip()`
  as a blankness test, `str.split()` and `str.join`.
- `Summarize.dfy`: `chunk_text` (`ChunkText`) and `summarize_text` (`SummarizeText`, with
  its loop `SummarizeChunks`) as methods. Each is proved equal to a reference function, and
  the promised properties are proved about those functions.
- `JsText.dfy`: the JavaScript string operations the server relies on: `trim`,
  `substring(0, n)`, `includes`, and `${n}` for a non-negative integer.
- `Server.dfy`: the helpers, the retry loop (`DownloadWithRetries`) and both handlers
  (`HandleYouTube`, `HandleUpload`) as methods. Each is proved equal to a reference
  function (`RetryDownload`, `YouTubeRoute`, `UploadRoute`).
- `ServerProperties.dfy`: what the server promises, proved about those reference functions.

Everything outside the process is a parameter. This covers the Hugging Face summariser,
play-dl's URL check, metadata and download, ffmpeg, Whisper, DeepSeek and `unlink`. Each
one is a total function that returns `Ok(value)` or `Err(message)`; `unlink` returns
whether it succeeded. The environment variables are the `Env` record. What a handler does
to the world is recorded in order as a trace of `Step`s. A pause is a `Wait(2000)` step,
not real time.

## Model

| member | source | states |
|---|---|---|
| `PyText.Split` | summarize.py:14 | `text.split()` yields only non-empty runs without whitespace |
| `PyText.BlankIffNoWords` | summarize.py:8-14 | `not s.strip()` holds exactly when `s.split()` is empty, so both empty-input tests agree |
| `PyText.SplitJoinRoundTrip` | summarize.py:14-20 | splitting the space-join of a list of words gives that list back |
| `PyText.JoinWithAt` | summarize.py:41 | in `sep.join(parts)` every part stands unchanged at its offset, after all earlier parts and one separator each |
| `PyText.JoinWithSeparator` | summarize.py:41 | in `sep.join(parts)` exactly `sep` lies between part k and part k + 1 |
| `Summarize.ChunkedSizes` | summarize.py:18-21 | every word group is non-empty and has at most n words; all but the last have exactly n |
| `Summarize.ChunkedCount` | summarize.py:18-21 | there are no groups exactly when there are no words; otherwise (groups - 1) * n < words <= groups * n |
| `Summarize.ChunkText` | summarize.py:13-23 | the while loop returns the reference chunk list; the chunks' words, in order, are `text.split()`; each chunk has 1 to `max_tokens` words |
| `Summarize.ChunksRoundTrip` | summarize.py:14-23 | the word lists of the chunks, concatenated in order, are exactly `text.split()` |
| `Summarize.ChunkWordCounts` | summarize.py:18-21 | no chunk is empty, none has more than n words, and every chunk but the last has exactly n |
| `Summarize.ChunkCount` | summarize.py:18-21 | `chunk_text(text)` returns ceil(w / 500) chunks, where w is the number of words |
| `Summarize.ChunkStringsEmptyIffBlank` | summarize.py:25-29 | the chunk list is empty exactly when the text is blank, so the second guard never fires |
| `Summarize.SummarizeChunks` | summarize.py:32-39 | the for loop gives one entry per chunk, in chunk order: the summary, or the placeholder when the call raised |
| `Summarize.SummarizeText` | summarize.py:3-43 | blank input returns "No summary available." and summarises no chunk; otherwise the chunks are summarised in order and the entries are joined with "\n\n" |
| `Summarize.SummaryKeepsChunkOrder` | summarize.py:32-41 | the entry for chunk k (its summary or the placeholder) sits unchanged in the final summary after the entries of all earlier chunks |
| `Summarize.SingleChunkSummary` | summarize.py:25-41 | text of at most 500 words gives one chunk, and the result is that chunk's entry alone, with no separator |
| `JsText.TrimPadded` | server/index.js:267-274 | `trim()` removes only the padding: visible text between runs of white space comes back unchanged |
| `JsText.Substring0` | server/index.js:163 | `substring(0, n)` is the first min(n, length) characters |
| `JsText.IncludesAt` | server/index.js:137 | a string that holds `sub` at some index satisfies `includes(sub)` |
| `JsText.IncludesFound` | server/index.js:137 | conversely, when `includes(sub)` holds, the lemma returns an index where `sub` occurs |
| `JsText.IncludesIffOccurs` | server/index.js:137 | `s.includes(sub)` holds exactly when `sub` occurs at some index of `s` |
| `JsText.DecimalRoundTrip` | server/index.js:270 | the decimal text rendered for a non-negative integer reads back as that integer |
| `Server.ExtractAudio` | server/index.js:52-79 | a successful extraction resolves to `${videoPath}.mp3` |
| `Server.AuthorName` | server/index.js:215 | `channel?.name \|\| 'Unknown'` is never empty |
| `Server.DurationParts` | server/index.js:270 | minutes = floor(d / 60) and seconds = d % 60, so 60 * minutes + seconds == d and seconds < 60 |
| `Server.RetryFrom` | server/index.js:228-240 | started at attempt k, the loop stops after more than k and at most 3 attempts in total |
| `Server.RetryDownload` | server/index.js:224-240 | the loop makes between 1 and 3 attempts |
| `Server.DownloadWithRetries` | server/index.js:224-240 | the while loop returns the reference path and attempt count; its trace is the attempts with one 2000 ms pause between two attempts |
| `Server.ProcessShortVideo` | server/index.js:220-261 | the branch for a video under 10 minutes leaves the reference transcription and steps |
| `Server.HandleYouTube` | server/index.js:201-291 | the YouTube handler answers and acts exactly as the reference route |
| `Server.HandleUpload` | server/index.js:301-347 | the upload handler answers and acts exactly as the reference route |
| `ServerProperties.RetryFromShape` | server/index.js:228-240 | from attempt k on, every attempt but the last failed; the last one gives the path, or all 3 failed and the error is the exhaustion message |
| `ServerProperties.RetryStopsAtFirstSuccess` | server/index.js:224-238 | at most 3 attempts, stopping at the first success; a path comes back exactly when one of the first 3 attempts succeeds; after 3 failures the error is 'Failed to download video after multiple attempts' |
| `ServerProperties.AttemptStepsShape` | server/index.js:228-238 | n attempts are attempts 0 to n - 1 in order, with n - 1 pauses, all of 2000 ms, and none after the last attempt |
| `ServerProperties.ShortVideoOutcomes` | server/index.js:220-261 | the short-video branch ends in one of three ways: download exhausted, ffmpeg error ("Error processing video: <message>"), or transcription followed by cleanup |
| `ServerProperties.ShortVideoSteps` | server/index.js:224-253 | the short-video branch downloads and pauses exactly as the retry loop does, and nowhere else |
| `ServerProperties.ShortVideoCleanup` | server/index.js:250-261 | with the cleanup block modelled by `Server.CleanupSteps`, the branch deletes files exactly when download and extraction succeeded; the audio file goes first, and the video file only if that removal succeeded |
| `ServerProperties.InvalidUrlRejectedFirst` | server/index.js:204-206 | a URL that play-dl does not classify as `'video'` gets 400 'Invalid YouTube URL' with an empty trace: no metadata fetch, no download |
| `ServerProperties.UrlCheckThrowIsServerError` | server/index.js:292-298 | when `play.yt_validate` throws (for example on a missing `url`), the outer `catch` answers 500 'Failed to process YouTube video' with the thrown message as details, with an empty trace |
| `ServerProperties.MetadataFailureIsServerError` | server/index.js:210-213 | for a URL that passed the check, the answer is a failure exactly when metadata fails; that answer is 500 'Failed to process YouTube video' with the message as details, after one fetch |
| `ServerProperties.YouTubeContentExact` | server/index.js:267-274 | `Server.YouTubeContent`, the template literal passed through `trim()`, is the template body whenever the transcription ends with a visible character |
| `ServerProperties.AnswerFrame` | server/index.js:266-284 | once transcribed, the route answers 200 with the summary of the content; it adds only the fetch before and the summarisation after, so no download, pause or deletion |
| `ServerProperties.DurationGate` | server/index.js:219-264 | a video of 600 s or more is never downloaded, extracted or transcribed; its content carries 'Video is too long for transcription (>10 minutes).' and the trace is fetch, summarise |
| `ServerProperties.ShortVideoIsDownloaded` | server/index.js:219-230 | under 600 s the first step after the metadata fetch is download attempt 0 |
| `ServerProperties.RetriesBounded` | server/index.js:224-240 | whatever the providers do, a request makes at most 3 attempts numbered 0, 1, ... and one 2000 ms pause between two attempts |
| `ServerProperties.DownloadFailureDegrades` | server/index.js:228-261 | three download failures make the transcription "Error processing video: Failed to download video after multiple attempts"; the answer is still a 200 summary, after 3 attempts and 2 pauses, with nothing deleted |
| `ServerProperties.ExtractionFailureDegrades` | server/index.js:242-261 | an ffmpeg failure makes the transcription "Error processing video: <message>"; the answer is still a 200 summary and nothing is deleted |
| `ServerProperties.CleanupOnlyOnSuccess` | server/index.js:250-261 | the route deletes something exactly when a video under 600 s was downloaded and converted |
| `ServerProperties.YouTubeAlwaysSummarizes` | server/index.js:266-284 | once metadata is known the answer is always a 200 summary of the content, with the metadata fetch first and the summarisation last |
| `ServerProperties.NoFileRejectedFirst` | server/index.js:303-305 | a request without a file gets 400 'No video file uploaded' with an empty trace |
| `ServerProperties.UploadAlwaysSummarizes` | server/index.js:310-347 | with a file the answer is always a 200 summary of `Server.UploadContent`, the untrimmed template of lines 331-338; an ffmpeg failure becomes "Error processing audio: <message>" and the trace is extract, summarise; on success the trace is extract, transcribe `<path>.mp3`, delete `<path>.mp3`, summarise; the upload itself is never deleted |
| `ServerProperties.TranscribeAudioDegrades` | server/index.js:135-153 | `transcribeAudio`, modelled by `Server.TranscribeAudio`, never throws: a missing or template key gives the fixed notice, a Whisper error gives "Error transcribing audio: <message>", and otherwise Whisper's text comes back |
| `ServerProperties.OpenAiTemplateAnywhere` | server/index.js:137 | an OpenAI key that contains the template text anywhere counts as missing |
| `ServerProperties.OpenAiKeyConfiguredIff` | server/index.js:137 | an OpenAI key counts as configured exactly when it is non-empty and holds no copy of the template text |
| `ServerProperties.DeepSeekTemplateExactly` | server/index.js:159 | any non-empty DeepSeek key other than exactly the template counts as configured |
| `ServerProperties.SummaryFallbackPreview` | server/index.js:156-193 | in `Server.GenerateSummary` (`generateSummaryWithDeepSeek`), without a DeepSeek key the summary is the notice, then the first 300 characters of the content (all of it if shorter), then "..."; a DeepSeek error gives "Failed to generate summary with DeepSeek API. Error: <message>" |
| `ServerProperties.SummaryFallbackIgnoresTail` | server/index.js:160-163 | without a key the fallback depends only on the first 300 characters of the content |
| `ServerProperties.DurationTextReadsBack` | server/index.js:270 | the rendered duration is "<m> minutes and <s> seconds", and its digits read back so that 60 * m + s == d |

## Left out

- Express setup, CORS, multer storage naming, static serving and catch-all routing (server/index.js:21-44, 357-386) are HTTP plumbing.
- The bodies of the foreign calls are oracles: ffmpeg, play-dl's validation, metadata and streams, Whisper, DeepSeek and the file system (server/index.js:52-132, 143-147, 168-189). Only their success value or failure message is modelled.
- The download oracle is indexed by attempt number. The loop's `!videoPath` test is modelled as "no path yet". `downloadYouTubeVideo` always resolves to the non-empty `uploads/<id>.mp4` (server/index.js:92), so a falsy path cannot occur.
- Download-speed logging (server/index.js:100-108) uses floating point and wall-clock time. All `console` and `print` logging is also left out.
- The outer `catch` of `generateSummaryWithDeepSeek` (server/index.js:194-197) is not modelled. Nothing in its `try` can throw apart from the inner API call, which has its own `catch`.
- The outer `catch` of the YouTube route (server/index.js:292-298) is modelled only for the URL check at line 204, the one call outside the inner `try` that can throw: play-dl's `yt_validate` is an oracle that may fail, for instance on a missing or non-string `url`, which the model represents only through that failure. The outer `catch` of the upload route (server/index.js:348-354) is not modelled: everything inside catches its own errors. A failure of `res.status(...).json(...)` itself is not modelled in either route.
- Each request is modelled in isolation. Two concurrent requests for the same video share `uploads/<id>.mp4` and its `.mp3` (server/index.js:53, 92), so one request's cleanup (server/index.js:252-253) can remove the other's files; the model does not capture that interleaving. The oracles are total, so a provider promise that never settles (the code sets no timeout) cannot occur in the model.
- `substring(0, 300)` counts UTF-16 code units in JavaScript. The model counts characters, which is the same for text without astral characters.
- `${n}` is modelled for non-negative integers, which covers every duration and file size. JavaScript's exponent notation from 1e21 up is not modelled.
- The summariser pipeline's construction and parameters (summarize.py:5, 35) are not modelled. The summariser is an oracle from a chunk to its summary or a raised error.
- The code has no cache, no rate limiter, no exponential backoff and no check for zero-byte files, so the model has none either. Files are deleted only on the success path. After an ffmpeg failure in the YouTube route, the downloaded video stays on disk, and `ExtractionFailureDegrades` states that.
- server/test.js, client/src/App.js, script.js, extract.py and main.py are not part of this model. They are a streaming experiment, UI code, and yt_dlp/Whisper glue.
