/**
  `transcribe_file` of the speech-recognition backend: the recognised
  segments become one transcript and a list of segment records. The Whisper
  model is not part of this model; its output is the given sequence of
  segments, whose timestamps are copied without being looked at.
 */
module Asr {

  import opened PyStrings

  /** A recognised segment as the model yields it. */
  datatype Segment<Time> = Segment(start: Time, end: Time, text: string)

  /** One entry of the returned segment list, `{"start", "end", "text"}`. */
  datatype SegmentRecord<Time> = SegmentRecord(start: Time, end: Time, text: string)

  /** The record `transcribe_file` builds for one segment: the same
      timestamps and the stripped text. */
  function RecordOf<Time>(seg: Segment<Time>): SegmentRecord<Time> {
    SegmentRecord(seg.start, seg.end, Strip(seg.text))
  }

  /** The stripped text of every segment, in order. */
  function StrippedTexts<Time>(segments: seq<Segment<Time>>): (texts: seq<string>)
    ensures |texts| == |segments|
    ensures forall k :: 0 <= k < |segments| ==> texts[k] == Strip(segments[k].text)
  {
    if segments == [] then []
    else StrippedTexts(segments[..|segments| - 1]) + [Strip(segments[|segments| - 1].text)]
  }

  /** The record of every segment, in order. */
  function RecordsOf<Time>(segments: seq<Segment<Time>>): (records: seq<SegmentRecord<Time>>)
    ensures |records| == |segments|
    ensures forall k :: 0 <= k < |segments| ==> records[k] == RecordOf(segments[k])
  {
    if segments == [] then []
    else RecordsOf(segments[..|segments| - 1]) + [RecordOf(segments[|segments| - 1])]
  }

  /** The raw text of every segment, in order. */
  function RawTexts<Time>(segments: seq<Segment<Time>>): (texts: seq<string>)
    ensures |texts| == |segments|
    ensures forall k :: 0 <= k < |segments| ==> texts[k] == segments[k].text
  {
    seq(|segments|, k requires 0 <= k < |segments| => segments[k].text)
  }

  /** `transcribe_file`: one record per segment, in order, holding the
      segment's own timestamps and stripped text; the transcript is the
      stripped texts joined by single spaces and stripped once more, so it
      never begins or ends with whitespace. */
  method TranscribeFile<Time>(segments: seq<Segment<Time>>)
    returns (transcript: string, records: seq<SegmentRecord<Time>>)
    ensures |records| == |segments|
    ensures forall k :: 0 <= k < |segments| ==> records[k] == RecordOf(segments[k])
    ensures transcript == Strip(JoinWithSpace(StrippedTexts(segments)))
    ensures NoOuterSpace(transcript)
    ensures segments == [] ==> transcript == "" && records == []
  {
    var texts: seq<string> := [];
    records := [];
    var i := 0;
    while i < |segments|
      invariant 0 <= i <= |segments|
      invariant texts == StrippedTexts(segments[..i])
      invariant records == RecordsOf(segments[..i])
    {
      var record := RecordOf(segments[i]);
      assert segments[..i + 1][..i] == segments[..i];
      texts := texts + [record.text];
      records := records + [record];
      i := i + 1;
    }
    assert segments[..i] == segments;
    transcript := Strip(JoinWithSpace(texts));
  }

  /** Stripping each text first does not change the words they hold. */
  lemma {:induction false} ConcatWordsOfStripped(xs: seq<string>, ys: seq<string>)
    requires |xs| == |ys|
    requires forall k :: 0 <= k < |xs| ==> ys[k] == Strip(xs[k])
    ensures ConcatWords(ys) == ConcatWords(xs)
  {
    if xs != [] {
      WordsOfStrip(xs[0]);
      ConcatWordsOfStripped(xs[1..], ys[1..]);
    }
  }

  /** The words of the transcript are the words of the segments, in
      order: assembling it neither loses, splits nor merges a word. */
  lemma TranscriptWords<Time>(segments: seq<Segment<Time>>)
    ensures Words(Strip(JoinWithSpace(StrippedTexts(segments)))) == ConcatWords(RawTexts(segments))
  {
    var texts := StrippedTexts(segments);
    WordsOfStrip(JoinWithSpace(texts));
    WordsOfJoin(texts);
    ConcatWordsOfStripped(RawTexts(segments), texts);
  }
}
