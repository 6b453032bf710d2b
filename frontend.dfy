/**
  The stateful half of the browser front end: the module-level variables
  `currentTranscript`, `currentSummary` and `retryCount`, the bounded retry
  of `processWithRetry`, the effective (second) `handleFormSubmit`,
  `displayResults` and the report of `downloadResults`.

  Each `fetch` of the processing endpoint is one element of a sequence of
  responses: `Delivered(data)` for a 2xx answer whose JSON body was read,
  `Failed` for a transport error, a non-2xx status or a body that is not
  JSON (all three land in the same `catch`). The cosmetic delays are no-ops.
 */
module Frontend {

  import opened Wrappers
  import opened UploadRules

  /** The JSON body of a successful answer. */
  datatype ProcessingResult = ProcessingResult(
    transcript: string,
    summary: string,
    duration: Option<int>,
    confidence: Option<int>)

  /** What one `fetch` of the endpoint comes back with. */
  datatype Response = Delivered(data: ProcessingResult) | Failed

  /** What `processWithRetry` ends in: the data it returns, or the error it
      rethrows once the retries are used up. */
  datatype Outcome = Succeeded(data: ProcessingResult) | GaveUp

  /** The outcome, how many requests were made, and `retryCount` afterwards. */
  datatype RetryRun = RetryRun(outcome: Outcome, attempts: nat, count: nat)

  const MaxRetries: nat := 3

  /** `processWithRetry` started with `retryCount == count`, one request per
      call: a delivered answer is returned as it is; a failure bumps the
      counter and tries again while it is at most `MaxRetries`, and otherwise
      resets it to zero and gives up. */
  function RunRetries(count: nat, responses: seq<Response>): RetryRun
    requires count <= MaxRetries && |responses| > MaxRetries - count
    decreases MaxRetries - count
  {
    match responses[0]
    case Delivered(data) => RetryRun(Succeeded(data), 1, count)
    case Failed =>
      if count + 1 <= MaxRetries then
        var rest := RunRetries(count + 1, responses[1..]);
        RetryRun(rest.outcome, rest.attempts + 1, rest.count)
      else
        RetryRun(GaveUp, 1, 0)
  }

  /** The whole behaviour of one call: every request but the last failed;
      the call succeeds exactly when the last request was answered, with that
      answer's data, and then the counter keeps every failure it saw;
      otherwise all `MaxRetries + 1 - count` requests failed and the counter
      is back to zero. The counter never leaves `0..MaxRetries`. */
  lemma {:induction false} RunRetriesSpec(count: nat, responses: seq<Response>)
    requires count <= MaxRetries && |responses| > MaxRetries - count
    ensures var r := RunRetries(count, responses);
      && 1 <= r.attempts <= MaxRetries + 1 - count
      && (forall j :: 0 <= j < r.attempts - 1 ==> responses[j].Failed?)
      && (r.outcome.Succeeded? <==> responses[r.attempts - 1].Delivered?)
      && (r.outcome.Succeeded? ==>
            r.outcome.data == responses[r.attempts - 1].data && r.count == count + r.attempts - 1)
      && (r.outcome.GaveUp? ==> r.attempts == MaxRetries + 1 - count && r.count == 0)
      && r.count <= MaxRetries
    decreases MaxRetries - count
  {
    if responses[0].Failed? && count + 1 <= MaxRetries {
      RunRetriesSpec(count + 1, responses[1..]);
      var rest := RunRetries(count + 1, responses[1..]);
      forall j | 0 <= j < rest.attempts ensures responses[j].Failed? {
        if j > 0 { assert responses[1..][j - 1] == responses[j]; }
      }
    }
  }

  /** From a fresh counter, four failures in a row end the call after four
      requests with the counter back at zero; three failures and then an
      answer give that answer, after four requests. */
  lemma RetryScenarios(data: ProcessingResult)
    ensures RunRetries(0, [Failed, Failed, Failed, Failed]) == RetryRun(GaveUp, 4, 0)
    ensures RunRetries(0, [Failed, Failed, Failed, Delivered(data)]) == RetryRun(Succeeded(data), 4, 3)
  {
  }

  /** A success does not reset the counter, so the failures of one
      submission eat into the retries of the next: after two failures and an
      answer, a later call that meets only failures gives up after two
      requests instead of four. */
  lemma SuccessKeepsStaleCount(data: ProcessingResult)
    ensures RunRetries(0, [Failed, Failed, Delivered(data), Failed]).count == 2
    ensures RunRetries(2, [Failed, Failed, Failed, Failed]) == RetryRun(GaveUp, 2, 0)
  {
  }

  // ---------------------------------------------------------------------
  // displayResults / updateStats and downloadResults
  // ---------------------------------------------------------------------

  /** The fields of the results view that the page fills in. */
  datatype ResultView = ResultView(transcript: string, summary: string, duration: string)

  /** What `displayResults(data, file)` shows. */
  function ViewOf(data: ProcessingResult, file: AudioFile): ResultView {
    ResultView(data.transcript, data.summary, FormatDuration(DisplayedDuration(data.duration, file.size)))
  }

  const Rule: string := "========================================"

  /** The opening lines of the report: its title and when it was made. */
  function Title(generatedOn: string): string {
    "ECHOSCRIBE AUDIO ANALYSIS RESULTS\nGenerated on: " + generatedOn + "\n"
  }

  const TranscriptBanner: string := "\n" + Rule + "\nTRANSCRIPT\n" + Rule + "\n"

  const SummaryBanner: string := "\n\n" + Rule + "\nAI SUMMARY\n" + Rule + "\n"

  const Footer: string := "\n\n" + Rule + "\nGenerated by EchoScribe - AI Audio Intelligence Platform\n"

  /** The text file that `downloadResults` offers. */
  function Report(transcript: string, summary: string, generatedOn: string): string {
    Title(generatedOn) + TranscriptBanner + transcript + SummaryBanner + summary + Footer
  }

  predicate OccursAt(text: string, piece: string, at: nat) {
    at + |piece| <= |text| && text[at..at + |piece|] == piece
  }

  lemma OccursInExtension(u: string, v: string, piece: string, i: nat)
    requires OccursAt(u, piece, i)
    ensures OccursAt(u + v, piece, i)
  {
    assert (u + v)[i..i + |piece|] == u[i..i + |piece|];
  }

  lemma OccursAfter(u: string, v: string, piece: string, i: nat)
    requires OccursAt(v, piece, i)
    ensures OccursAt(u + v, piece, |u| + i)
  {
    assert (u + v)[|u| + i..|u| + i + |piece|] == v[i..i + |piece|];
  }

  lemma BannerHeadings()
    ensures OccursAt(TranscriptBanner, "TRANSCRIPT", 42)
    ensures OccursAt(SummaryBanner, "AI SUMMARY", 43)
  {
    assert TranscriptBanner == "\n" + Rule + "\n" + "TRANSCRIPT" + "\n" + Rule + "\n";
    assert TranscriptBanner[42..52] == "TRANSCRIPT";
    assert SummaryBanner == "\n\n" + Rule + "\n" + "AI SUMMARY" + "\n" + Rule + "\n";
    assert SummaryBanner[43..53] == "AI SUMMARY";
  }

  /** Six pieces laid end to end keep, in order, the headings found inside
      the second and the fourth piece and the texts between them. */
  lemma PiecesInOrder(title: string, banner1: string, t: string, banner2: string, s: string, footer: string,
                      h1: string, i: nat, h2: string, j: nat)
    requires OccursAt(banner1, h1, i) && OccursAt(banner2, h2, j)
    ensures var r := title + banner1 + t + banner2 + s + footer;
      && OccursAt(r, title, 0)
      && exists a: nat, b: nat, c: nat, d: nat ::
           && a + |h1| <= b && b + |t| <= c && c + |h2| <= d
           && OccursAt(r, h1, a) && OccursAt(r, t, b)
           && OccursAt(r, h2, c) && OccursAt(r, s, d)
  {
    var p1 := title + banner1;
    var p2 := p1 + t;
    var p3 := p2 + banner2;
    var p4 := p3 + s;
    var a, b, c, d := |title| + i, |p1|, |p2| + j, |p3|;
    assert OccursAt(title, title, 0) && OccursAt(t, t, 0) && OccursAt(s, s, 0);
    // the title
    OccursInExtension(title, banner1, title, 0);
    OccursInExtension(p1, t, title, 0);
    OccursInExtension(p2, banner2, title, 0);
    OccursInExtension(p3, s, title, 0);
    OccursInExtension(p4, footer, title, 0);
    // the first heading
    OccursAfter(title, banner1, h1, i);
    OccursInExtension(p1, t, h1, a);
    OccursInExtension(p2, banner2, h1, a);
    OccursInExtension(p3, s, h1, a);
    OccursInExtension(p4, footer, h1, a);
    // the transcript
    OccursAfter(p1, t, t, 0);
    OccursInExtension(p2, banner2, t, b);
    OccursInExtension(p3, s, t, b);
    OccursInExtension(p4, footer, t, b);
    // the second heading
    OccursAfter(p2, banner2, h2, j);
    OccursInExtension(p3, s, h2, c);
    OccursInExtension(p4, footer, h2, c);
    // the summary
    OccursAfter(p3, s, s, 0);
    OccursInExtension(p4, footer, s, d);
  }

  /** The report opens with its title and the generation time, and then
      holds, in this order and without overlap, the `TRANSCRIPT` heading,
      the transcript, the `AI SUMMARY` heading and the summary. */
  lemma ReportSectionsInOrder(transcript: string, summary: string, generatedOn: string)
    ensures var r := Report(transcript, summary, generatedOn);
      && OccursAt(r, "ECHOSCRIBE AUDIO ANALYSIS RESULTS\nGenerated on: " + generatedOn + "\n", 0)
      && exists a: nat, b: nat, c: nat, d: nat ::
           && a + 10 <= b && b + |transcript| <= c && c + 10 <= d
           && OccursAt(r, "TRANSCRIPT", a) && OccursAt(r, transcript, b)
           && OccursAt(r, "AI SUMMARY", c) && OccursAt(r, summary, d)
  {
    BannerHeadings();
    PiecesInOrder(Title(generatedOn), TranscriptBanner, transcript, SummaryBanner, summary, Footer,
                  "TRANSCRIPT", 42, "AI SUMMARY", 43);
  }

  /** The name of the downloaded file, `echoscribe-results-<ms>.txt`. */
  function DownloadFileName(nowMs: nat): string {
    "echoscribe-results-" + NatToString(nowMs) + ".txt"
  }

  /** The file name carries the timestamp in decimal, so it can be read
      back from the name. */
  lemma DownloadFileNameCarriesTime(nowMs: nat)
    ensures var name := DownloadFileName(nowMs);
      && |name| > 23 && name[..19] == "echoscribe-results-" && name[|name| - 4..] == ".txt"
      && AllDigits(name[19..|name| - 4]) && DigitsValue(name[19..|name| - 4]) == nowMs
  {
    NatToStringRoundTrip(nowMs);
    var name := DownloadFileName(nowMs);
    assert name[19..|name| - 4] == NatToString(nowMs);
  }

  /** A download offered by `downloadResults`. */
  datatype Download = Download(fileName: string, content: string)

  /** The outcome of one submission of the upload form. */
  datatype Submission = NoFileSelected | Rejected(verdict: Verdict) | Displayed(view: ResultView) | ProcessingFailed

  /** The page's module-level state. */
  class App {
    var currentTranscript: string
    var currentSummary: string
    var retryCount: nat

    /** Between calls the retry counter stays within its bound. */
    ghost predicate Valid()
      reads this
    {
      retryCount <= MaxRetries
    }

    /** The state when the script has just been loaded. */
    constructor ()
      ensures Valid()
      ensures currentTranscript == "" && currentSummary == "" && retryCount == 0
    {
      currentTranscript := "";
      currentSummary := "";
      retryCount := 0;
    }

    /** `processWithRetry`, with its recursion written as a loop: one
        request per round, until an answer arrives or the counter passes
        `MaxRetries`. */
    method ProcessWithRetry(responses: seq<Response>) returns (outcome: Outcome, attempts: nat)
      requires Valid() && |responses| > MaxRetries
      modifies this`retryCount
      ensures Valid()
      ensures RetryRun(outcome, attempts, retryCount) == RunRetries(old(retryCount), responses)
    {
      ghost var start := retryCount;
      attempts := 0;
      while true
        invariant start <= retryCount <= MaxRetries
        invariant attempts == retryCount - start
        invariant var tail := RunRetries(retryCount, responses[attempts..]);
          RunRetries(start, responses) == RetryRun(tail.outcome, tail.attempts + attempts, tail.count)
        decreases MaxRetries - retryCount
      {
        var response := responses[attempts];
        assert responses[attempts..][1..] == responses[attempts + 1..];
        attempts := attempts + 1;
        if response.Delivered? {
          return Succeeded(response.data), attempts;
        }
        retryCount := retryCount + 1;
        if retryCount > MaxRetries {
          retryCount := 0;
          return GaveUp, attempts;
        }
      }
    }

    /** `displayResults`: remember the texts and fill in the view. */
    method DisplayResults(data: ProcessingResult, file: AudioFile) returns (view: ResultView)
      modifies this`currentTranscript, this`currentSummary
      ensures currentTranscript == data.transcript && currentSummary == data.summary
      ensures view == ViewOf(data, file)
    {
      currentTranscript := data.transcript;
      currentSummary := data.summary;
      view := ViewOf(data, file);
    }

    /** The effective `handleFormSubmit`: no request is made unless a file
        is selected and `validateFile` accepts it; then the outcome of
        `processWithRetry` is displayed or reported as a failure. */
    method HandleFormSubmit(selected: Option<AudioFile>, responses: seq<Response>)
      returns (result: Submission, requests: nat)
      requires Valid() && |responses| > MaxRetries
      modifies this
      ensures Valid()
      ensures selected.None? ==> result == NoFileSelected && requests == 0 && unchanged(this)
      ensures selected.Some? && ValidateFile(selected.value) != Accepted ==>
        result == Rejected(ValidateFile(selected.value)) && requests == 0 && unchanged(this)
      ensures selected.Some? && ValidateFile(selected.value) == Accepted ==>
        var run := RunRetries(old(retryCount), responses);
        && requests == run.attempts && retryCount == run.count
        && (run.outcome.Succeeded? ==>
              && result == Displayed(ViewOf(run.outcome.data, selected.value))
              && currentTranscript == run.outcome.data.transcript
              && currentSummary == run.outcome.data.summary)
        && (run.outcome.GaveUp? ==>
              && result == ProcessingFailed
              && currentTranscript == old(currentTranscript)
              && currentSummary == old(currentSummary))
    {
      if selected.None? {
        return NoFileSelected, 0;
      }
      var file := selected.value;
      var verdict := ValidateFile(file);
      if verdict != Accepted {
        return Rejected(verdict), 0;
      }
      var outcome;
      outcome, requests := ProcessWithRetry(responses);
      match outcome
      case Succeeded(data) =>
        var view := DisplayResults(data, file);
        result := Displayed(view);
      case GaveUp =>
        result := ProcessingFailed;
    }

    /** `downloadResults`: nothing when both texts are empty, otherwise the
        report under its time-stamped name. */
    method DownloadResults(generatedOn: string, nowMs: nat) returns (download: Option<Download>)
      ensures download.None? <==> currentTranscript == "" && currentSummary == ""
      ensures download.Some? ==>
        download.value == Download(DownloadFileName(nowMs), Report(currentTranscript, currentSummary, generatedOn))
    {
      if currentTranscript == "" && currentSummary == "" {
        return None;
      }
      download := Some(Download(DownloadFileName(nowMs), Report(currentTranscript, currentSummary, generatedOn)));
    }
  }

  /** Two submissions in a row: a valid 3 MiB `song.mp3` answered at once
      shows its transcript and the estimated `3:00`; then four failures end
      in the failure notice with the counter back at zero and the earlier
      results kept for download. */
  method SubmissionScenario()
  {
    var app := new App();
    var song := AudioFile("song.mp3", 3 * MiB, "audio/mpeg");
    var data := ProcessingResult("hello world", "greeting", None, None);
    var spare := Delivered(data);
    FallbackDurationOfValidFile(3 * MiB);
    var result, requests := app.HandleFormSubmit(Some(song), [Delivered(data), spare, spare, spare]);
    assert result == Displayed(ResultView("hello world", "greeting", "3:00"));
    assert requests == 1 && app.retryCount == 0;
    result, requests := app.HandleFormSubmit(Some(song), [Failed, Failed, Failed, Failed]);
    assert result == ProcessingFailed && requests == 4 && app.retryCount == 0;
    var download := app.DownloadResults("now", 0);
    assert download.Some? && download.value.content == Report("hello world", "greeting", "now");
  }
}
