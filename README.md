# EchoScribe core, modelled in Dafny

EchoScribe turns an uploaded audio file into a transcript and a summary.
The browser page checks the file and posts it to a backend, retrying
failed requests. It shows the returned texts and the duration, and it can
save both texts as a report. The backend transcribes the audio with a
Whisper model and summarises the transcript with a summarisation pipeline.

The project models three parts:

- the rules and state of the page (`frontend/script.js`);
- the transcript assembly of `transcribe_file` (`backend/asr.py`);
- the guard, length bounds and fallback of `summarize_text`
  (`backend/summarizer.py`).

Modules:

- `Wrappers` holds the `Option` datatype.
- `PyStrings` models the parts of Python `str` the backend uses.
  - `IsSpace` is the whitespace class of `str.isspace()`.
  - `Strip` is `strip()`.
  - `Words` is `split()` with no argument.
  - `JoinWithSpace` is `" ".join(...)`.
- `UploadRules` holds the pure rules of the page:
  - `validateFile`, including the case-insensitive extension pattern;
  - `estimateDuration` and `formatDuration`;
  - the duration shown by `updateStats`.
- `Frontend` holds the state of the page.
  - The module-level variables `currentTranscript`, `currentSummary` and
    `retryCount` are the fields of the class `App`.
  - `processWithRetry` becomes a loop against the function `RunRetries`.
  - Its methods also model the effective `handleFormSubmit`,
    `displayResults` and `downloadResults`.
- `Asr` models `transcribe_file` as a loop over the recognised segments.
- `Summarizer` models `summarize_text` as a function of the pipeline and
  the text.

Several inputs are parameters of the model:

- the network: each `fetch` of the processing endpoint is one element of a
  sequence of `Response`s;
- the Whisper model: its segments are a sequence;
- the summarisation pipeline: a function from the text, `max_length` and
  `min_length` to an outcome;
- the clock: "now" is a string and a number of milliseconds.

## The retry counter after a success

The counter goes back to zero only when the retries run out
(`frontend/script.js:438`, commented "Reset for next time"). A success
returns without touching it (line 429), so it keeps the failures that
came before. The model follows the code.
`RunRetriesSpec` states that a success leaves the counter at its starting
value plus the failures seen. `SuccessKeepsStaleCount` shows the effect:
failures before a success reduce the retries left for the next
submission.

## Model

| member | source | states |
|---|---|---|
| UploadRules.ValidateFile | frontend/script.js:354-369 | the verdict is UnsupportedType exactly when the MIME type is not one of the four allowed types and the name has no audio extension; TooLarge only when the size exceeds 100 MiB |
| UploadRules.ValidateFileAccepts | frontend/script.js:354-369 | a file is accepted iff (its type is audio/wav, audio/mpeg, audio/mp4 or audio/m4a, or its lower-cased name ends in .wav, .mp3 or .m4a) and its size is at most 104857600 bytes |
| UploadRules.HasAudioExtensionIffLowerSuffix | frontend/script.js:358 | the case-insensitive extension pattern holds iff the name, with its ASCII letters lower-cased, ends in one of the three extensions |
| UploadRules.MatchesIffLowerCase | frontend/script.js:358 | matching a lower-case literal under the `i` flag is the same as comparing the lower-cased text with it |
| UploadRules.EndsWithLowerIffMatches | frontend/script.js:358 | the lower-cased name ends in a four-letter lower-case extension iff its last four characters match it ignoring case |
| UploadRules.TypeCheckedBeforeSize | frontend/script.js:358-366 | a file refused for its type is refused for its type at every size |
| UploadRules.SizeBoundary | frontend/script.js:356-366 | for a file of an accepted type, 104857600 bytes is accepted and 104857601 bytes is too large |
| UploadRules.AllowedTypeIgnoresName | frontend/script.js:358 | with an allowed MIME type the name does not affect the verdict, and only the size decides |
| UploadRules.AudioExtensionIgnoresType | frontend/script.js:358 | with an audio extension the MIME type does not affect the verdict, and only the size decides |
| UploadRules.NatToStringRoundTrip | frontend/script.js:237 | the decimal text of a number is all digits, has no leading zero and reads back as the number |
| UploadRules.EstimateDuration | frontend/script.js:229-232 | the estimate is the largest whole number of seconds s with s·2^20 ≤ size·60 |
| UploadRules.FormatDuration | frontend/script.js:234-238 | `formatDuration`: floor minutes, a colon and the JavaScript remainder padded to two characters; its meaning is stated by FormatDurationIsClock and FormatDurationExamples |
| UploadRules.FormatDurationIsClock | frontend/script.js:234-238 | for s ≥ 0 the text is minutes, a colon and exactly two digits of seconds below 60; minutes·60 + seconds gives back s, and the minutes have no leading zero |
| UploadRules.FormatDurationExamples | frontend/script.js:234-238 | 125 shows as 2:05, 59 as 0:59, 180 as 3:00, and -5 as -1:-5 because of JavaScript's signed remainder |
| UploadRules.DisplayedDuration | frontend/script.js:221 | a reported non-zero duration is shown as it is; a missing or zero duration is replaced by the size estimate |
| UploadRules.FallbackDurationOfValidFile | frontend/script.js:221-232 | for an accepted size the fallback lies in 0..6000 seconds, a zero duration gives the same as a missing one, 2 MiB gives 120, and 3 MiB shows as 3:00 |
| Frontend.RunRetries | frontend/script.js:418-442 | the reference behaviour of one `processWithRetry` call from a given counter; its properties are stated by RunRetriesSpec, and App.ProcessWithRetry is proved equal to it |
| Frontend.RunRetriesSpec | frontend/script.js:415-442 | one call makes 1 to 4 − count requests; every request but the last failed; the call succeeds iff the last request was answered, returns that answer's data, and leaves the counter at count plus the failures seen; otherwise all 4 − count requests failed and the counter is back at 0; the counter stays within 0..3 |
| Frontend.RetryScenarios | frontend/script.js:415-442 | from 0, four failures give up after 4 requests with the counter at 0; three failures and then an answer return that answer after 4 requests |
| Frontend.SuccessKeepsStaleCount | frontend/script.js:429-441 | two failures and then an answer leave the counter at 2, and a later call that meets only failures then gives up after 2 requests |
| Frontend.App.constructor | frontend/script.js:2-3 | the script starts with empty texts (lines 2-3) and the counter at 0 (line 415) |
| Frontend.App.ProcessWithRetry | frontend/script.js:418-442 | the outcome, the number of requests and the new counter are exactly those of RunRetries from the old counter, and the counter stays within 0..3 |
| Frontend.App.DisplayResults | frontend/script.js:192-222 | the current transcript and summary become the returned texts, and the view shows them with the formatted duration |
| Frontend.App.HandleFormSubmit | frontend/script.js:445-478 | with no file, or a file validateFile refuses, no request is made and nothing changes; otherwise the requests and the counter follow RunRetries; a success displays the data and stores its texts, a failure keeps the earlier texts |
| Frontend.ViewOf | frontend/script.js:196-222 | what `displayResults` shows: both texts and the formatted displayed duration; the duration is stated by DisplayedDuration and FormatDurationIsClock |
| Frontend.Report | frontend/script.js:323-338 | the report text of `downloadResults`; its layout is stated by ReportSectionsInOrder and BannerHeadings |
| Frontend.ReportSectionsInOrder | frontend/script.js:323-338 | the report opens with its title and generation time, then holds, in order and without overlap, the TRANSCRIPT heading, the transcript, the AI SUMMARY heading and the summary |
| Frontend.BannerHeadings | frontend/script.js:326-333 | the banners carry the TRANSCRIPT and AI SUMMARY headings between their rules |
| Frontend.DownloadFileName | frontend/script.js:344 | `echoscribe-results-${Date.now()}.txt`; stated by DownloadFileNameCarriesTime |
| Frontend.DownloadFileNameCarriesTime | frontend/script.js:344 | the file name is `echoscribe-results-`, the timestamp in decimal digits that read back as the timestamp, and `.txt` |
| Frontend.App.DownloadResults | frontend/script.js:317-351 | nothing is offered iff both texts are empty; otherwise the report of the current texts is offered under the time-stamped name |
| PyStrings.Strip | backend/asr.py:42 | the stripped text neither begins nor ends with whitespace, and it is empty iff the input is all whitespace |
| PyStrings.StripIsFramed | backend/asr.py:42 | the stripped text sits inside the input with only whitespace before and after it |
| PyStrings.TrimStartSpec | backend/asr.py:42 | cutting the leading whitespace keeps a suffix, removes only whitespace and leaves no whitespace in front |
| PyStrings.TrimEndSpec | backend/asr.py:42 | cutting the trailing whitespace keeps a prefix, removes only whitespace and leaves no whitespace at the back |
| PyStrings.Words | backend/summarizer.py:32 | `split()` with no argument; determined on every string by WordOfRun, WordsOfAppend and WordsEmptyIffAllSpace, and its words are stated by WordsAreRuns |
| PyStrings.WordOfRun | backend/summarizer.py:32 | a non-empty run with no whitespace is exactly one word, so `split()` never cuts inside a run |
| PyStrings.WordsEmptyIffAllSpace | backend/summarizer.py:32 | `split()` yields no word iff the text is empty or all whitespace |
| PyStrings.WordsAreRuns | backend/summarizer.py:32 | every word `split()` yields is non-empty and contains no whitespace |
| PyStrings.WordsOfAppend | backend/summarizer.py:32 | splitting two texts joined at whitespace gives the words of the first, then the words of the second |
| PyStrings.WordsOfStrip | backend/asr.py:48 | stripping does not change the words of a text |
| PyStrings.JoinWithSpace | backend/asr.py:48 | `" ".join(xs)`; its words are stated by WordsOfJoin |
| PyStrings.WordsOfJoin | backend/asr.py:48 | the words of a space-joined list are the words of its members, in order |
| Asr.TranscribeFile | backend/asr.py:34-48 | one record per segment, in order, with the segment's start and end and its stripped text; the transcript is the stripped texts joined by spaces and stripped again, so it has no outer whitespace; no segments give an empty transcript and no records |
| Asr.TranscriptWords | backend/asr.py:39-48 | the words of the transcript are the words of all segment texts, in order, so assembly neither loses, splits nor merges a word |
| Summarizer.SummarizeText | backend/summarizer.py:24-46 | blank text gives ""; any other text gives either the text itself or the summary_text of the first record the pipeline returned for the text with max_len and min_len; FallbackToText and FirstSummaryTextIsReturned say which |
| Summarizer.MaxLen | backend/summarizer.py:33 | max_len lies in 20..180, equals the word count inside that range, and is 20 below it and 180 above it |
| Summarizer.MinLen | backend/summarizer.py:34 | min_len is at least 5, is 5 below 15 words, and is otherwise the word count divided by 3, rounded down |
| Summarizer.BlankIffNoWords | backend/summarizer.py:28-32 | the guard holds iff the text is all whitespace, iff its word count is 0 |
| Summarizer.BlankTextIsNotSummarized | backend/summarizer.py:28-29 | blank text gives "" whatever the pipeline would answer |
| Summarizer.OnlyOneCallMatters | backend/summarizer.py:32-43 | for text with a word, the result depends only on the pipeline's answer for the text with the computed max_len and min_len, and the word count is at least 1 |
| Summarizer.LengthBounds | backend/summarizer.py:32-34 | for text with a word, max_length is in 20..180 and equals the word count inside that range, and min_length is at least 5 |
| Summarizer.MinExceedsMaxFrom543 | backend/summarizer.py:33-34 | min_len exceeds max_len exactly from 543 words on |
| Summarizer.FallbackToText | backend/summarizer.py:36-46 | when the pipeline raises, or answers with no first record or without summary_text, the original text is returned |
| Summarizer.FirstSummaryTextIsReturned | backend/summarizer.py:37-43 | when the first record of the answer has summary_text, that text is returned |

## Left out

- DOM work, notices, animations, scrolling, the processing overlay and the
  cosmetic delays in `frontend/script.js` have no state the rules depend
  on, so they are not modelled.
- The upload is not modelled: the model has no `FormData`, no Blob and no
  object URL. A request is one element of the response sequence, and a
  download is a file name and its content.
- The first `handleFormSubmit` (`frontend/script.js:117`) is replaced by the
  second one, at line 445, before it can run. Only the second is modelled.
- The file-input `change` listener (`frontend/script.js:372-382`), drag
  and drop (`frontend/script.js:74-83`) and `resetForm`
  (`frontend/script.js:285-315`) only change which file is selected.
  - The `change` listener clears the input when `validateFile` refuses
    the picked file.
  - A dropped file is selected without being validated.
  - `resetForm` clears the form.
  - The model takes the resulting selection as the `selected` input of
    `Frontend.App.HandleFormSubmit`. There, no file is `None`, and
    validation runs again before any request.
  - `resetForm` also hides the results, but it leaves `currentTranscript`
    and `currentSummary` as they are. So `Frontend.App.DownloadResults`
    still offers the earlier report, as the model's state has it.
- The keyboard shortcut opens the file picker
  (`frontend/script.js:387-390`). `copyToClipboard` writes the current
  transcript or summary to the clipboard (`frontend/script.js:275-283`).
  Neither changes the texts or the counter, so they are not modelled.
- The confidence shown is `data.confidence` when it is truthy, and
  otherwise a `Math.random` value (`frontend/script.js:225`). The size in
  MB goes through `toFixed(1)`. Both are display-only and left out.
- Every 2xx body is taken to be an object with string `transcript` and
  `summary` fields, which is what `backend/app.py:90` sends.
  - The page accepts any JSON value (`frontend/script.js:429`).
  - On a `null` body, `displayResults` throws (`frontend/script.js:193`),
    and the catch shows the failure notice with the earlier texts kept.
  - On an object without those fields, `undefined` is stored.
  - Neither case is modelled.
- A `fetch` that never settles is not modelled either. The source sets no
  time-out, and every request of the model gets an answer or fails.
- Durations are whole numbers of seconds. A fractional duration from the
  server, and the text `formatDuration` gives for it, are not modelled.
- UploadRules.EstimateDuration: integer arithmetic stands for
  `Math.floor(size / 2^20 * 60)`. The two agree exactly for sizes below
  2^47 bytes, which covers every accepted file. Beyond that, double
  rounding is not modelled.
- UploadRules.FormatDuration: JavaScript switches to exponent notation at
  10^21, and the model does not.
- The retry delay and the retry notice are not modelled.
- Frontend.App.ProcessWithRetry requires at least four responses, so the
  network never runs out. The call makes at most four requests.
- A second submission started while one is in flight is not modelled. The
  model runs one submission at a time.
- The Whisper model, `load_asr` and its choice of device are not modelled.
  The segments are the input of `Asr.TranscribeFile`, taken as already
  produced.
- The segments' timestamps are copied and never inspected. They are a type
  parameter.
- The pipeline and `load_summarizer` are not modelled. The pipeline is a
  parameter of `Summarizer.SummarizeText`. Its answer is `Raised` or a
  list of string maps. An index or key error on that answer falls back to
  the text, exactly like an exception of the pipeline.
- The `print` logging in the backend is not modelled.
- `backend/app.py`, `backend/download_models.py`, `backend/client.py` and the
  page's markup and styles are not modelled. They wire the core to HTTP
  or to files.
- PyStrings.IsSpace: the whitespace class is written out as a table of
  characters. It is not derived from the Unicode database.
