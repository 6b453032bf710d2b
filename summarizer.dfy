/**
  `summarize_text` of the summarisation backend: blank text is answered
  with the empty string, any other text is handed to the summarisation
  pipeline with output bounds derived from its word count, and the original
  text is returned whenever the pipeline fails. The pipeline itself is a
  parameter: what it answers for a text and two bounds.
 */
module Summarizer {

  import opened PyStrings

  /** What a call of the pipeline does: raise an exception, or return a
      list of records whose first one should carry the summary. */
  datatype PipelineOutcome = Raised | Returned(items: seq<map<string, string>>)

  /** The pipeline, as a function of the text, `max_length` and
      `min_length`. */
  type Pipeline = (string, nat, nat) -> PipelineOutcome

  const SummaryKey: string := "summary_text"

  /** The guard `not text or text.strip() == ""`. */
  predicate Blank(text: string) {
    text == "" || Strip(text) == ""
  }

  /** `input_len`: the number of words `text.split()` yields. */
  function InputLen(text: string): nat {
    |Words(text)|
  }

  /** `max_len`: the word count clamped to the range 20..180. */
  function MaxLen(inputLen: nat): (maxLen: nat)
    ensures 20 <= maxLen <= 180
    ensures 20 <= inputLen <= 180 ==> maxLen == inputLen
    ensures inputLen < 20 ==> maxLen == 20
    ensures inputLen > 180 ==> maxLen == 180
  {
    var atLeast20 := if inputLen < 20 then 20 else inputLen;
    if atLeast20 > 180 then 180 else atLeast20
  }

  /** `min_len`: a third of the word count, rounded down, but at least 5. */
  function MinLen(inputLen: nat): (minLen: nat)
    ensures 5 <= minLen
    ensures inputLen < 15 ==> minLen == 5
    ensures inputLen >= 15 ==> 3 * minLen <= inputLen < 3 * minLen + 3
  {
    var third := inputLen / 3;
    if third < 5 then 5 else third
  }

  /** What `summarize_text` gives back once the pipeline has answered. */
  function SummaryFrom(outcome: PipelineOutcome, text: string): string {
    match outcome
    case Raised => text
    case Returned(items) =>
      if |items| > 0 && SummaryKey in items[0] then items[0][SummaryKey] else text
  }

  /** `summarize_text(summarizer, text)`. An index or key error on the
      pipeline's answer is caught by the same handler as a failure of the
      pipeline, so both fall back to the text. */
  function SummarizeText(summarizer: Pipeline, text: string): (summary: string)
    ensures Blank(text) ==> summary == ""
    ensures !Blank(text) ==>
      var out := summarizer(text, MaxLen(InputLen(text)), MinLen(InputLen(text)));
      || summary == text
      || (out.Returned? && out.items != [] && SummaryKey in out.items[0] && summary == out.items[0][SummaryKey])
  {
    if Blank(text) then ""
    else
      var n := InputLen(text);
      SummaryFrom(summarizer(text, MaxLen(n), MinLen(n)), text)
  }

  /** The guard holds exactly for text that is empty or all whitespace,
      which is exactly the text without words. */
  lemma BlankIffNoWords(text: string)
    ensures Blank(text) <==> AllSpace(text)
    ensures Blank(text) <==> InputLen(text) == 0
  {
    WordsEmptyIffAllSpace(text);
  }

  /** Blank text is answered with the empty string whatever the pipeline
      would do: the pipeline is not consulted. */
  lemma BlankTextIsNotSummarized(summarizer: Pipeline, other: Pipeline, text: string)
    requires AllSpace(text)
    ensures SummarizeText(summarizer, text) == ""
    ensures SummarizeText(summarizer, text) == SummarizeText(other, text)
  {
    BlankIffNoWords(text);
  }

  /** Text with a word in it is summarised: the pipeline is consulted once,
      with the text, `max_length` and `min_length` derived from the word
      count; two pipelines that agree on that one call give the same
      answer. */
  lemma OnlyOneCallMatters(summarizer: Pipeline, other: Pipeline, text: string)
    requires !AllSpace(text)
    requires summarizer(text, MaxLen(InputLen(text)), MinLen(InputLen(text)))
          == other(text, MaxLen(InputLen(text)), MinLen(InputLen(text)))
    ensures SummarizeText(summarizer, text) == SummarizeText(other, text)
    ensures InputLen(text) >= 1
  {
    BlankIffNoWords(text);
  }

  /** The bounds handed to the pipeline for text with a word in it:
      `max_length` is in 20..180 and equals the word count inside that range,
      `min_length` is at least 5. */
  lemma LengthBounds(text: string)
    requires !AllSpace(text)
    ensures var n := InputLen(text);
      && 1 <= n
      && 20 <= MaxLen(n) <= 180
      && (20 <= n <= 180 ==> MaxLen(n) == n)
      && 5 <= MinLen(n)
  {
    BlankIffNoWords(text);
  }

  /** The two bounds contradict each other (`min_length` above
      `max_length`) exactly from 543 words on. */
  lemma MinExceedsMaxFrom543(inputLen: nat)
    ensures MinLen(inputLen) > MaxLen(inputLen) <==> inputLen >= 543
  {
    if inputLen >= 543 {
      assert inputLen / 3 >= 181;
    } else if inputLen > 180 {
      assert inputLen / 3 <= 180;
    } else if inputLen >= 20 {
      assert inputLen / 3 <= inputLen;
    }
  }

  /** When the pipeline fails, or its answer has no first record or no
      `summary_text` in it, the original text comes back unchanged. */
  lemma FallbackToText(summarizer: Pipeline, text: string)
    requires !AllSpace(text)
    requires var out := summarizer(text, MaxLen(InputLen(text)), MinLen(InputLen(text)));
      out.Raised? || out.items == [] || SummaryKey !in out.items[0]
    ensures SummarizeText(summarizer, text) == text
  {
    BlankIffNoWords(text);
  }

  /** When the pipeline answers with a first record carrying
      `summary_text`, that text is the summary. */
  lemma FirstSummaryTextIsReturned(summarizer: Pipeline, text: string, items: seq<map<string, string>>)
    requires !AllSpace(text)
    requires summarizer(text, MaxLen(InputLen(text)), MinLen(InputLen(text))) == Returned(items)
    requires items != [] && SummaryKey in items[0]
    ensures SummarizeText(summarizer, text) == items[0][SummaryKey]
  {
    BlankIffNoWords(text);
  }
}
