/**
  The pure rules of the browser front end: which files may be uploaded
  (`validateFile`), how long a file is guessed to play (`estimateDuration`),
  how a number of seconds is shown (`formatDuration`) and which duration the
  statistics panel shows (`updateStats`).
 */
module UploadRules {

  import opened Wrappers

  /** The three attributes of a browser `File` that the page reads. */
  datatype AudioFile = AudioFile(name: string, size: nat, mimeType: string)

  /** Which branch of `validateFile` decides, and so which notice is shown. */
  datatype Verdict = Accepted | UnsupportedType | TooLarge

  const AllowedTypes: seq<string> := ["audio/wav", "audio/mpeg", "audio/mp4", "audio/m4a"]

  const MiB: nat := 1024 * 1024

  const MaxSize: nat := 100 * MiB

  // ---------------------------------------------------------------------
  // The extension test `/\.(wav|mp3|m4a)$/i`
  // ---------------------------------------------------------------------

  /** The upper-case partner of an ASCII letter. Without the `u` flag a
      case-insensitive JavaScript pattern never maps a non-ASCII character
      onto an ASCII one, so ASCII case is all that matters here. */
  function AsciiUpper(c: char): char {
    if 'a' <= c <= 'z' then (c as int - 32) as char else c
  }

  function AsciiLower(c: char): char {
    if 'A' <= c <= 'Z' then (c as int + 32) as char else c
  }

  function LowerCase(s: string): (r: string)
    ensures |r| == |s|
    ensures forall k :: 0 <= k < |s| ==> r[k] == AsciiLower(s[k])
  {
    seq(|s|, k requires 0 <= k < |s| => AsciiLower(s[k]))
  }

  /** `s` matches the literal `lit` (written in lower case) under the `i`
      flag. */
  predicate MatchesIgnoringCase(s: string, lit: string) {
    |s| == |lit| && forall k :: 0 <= k < |s| ==> s[k] == lit[k] || s[k] == AsciiUpper(lit[k])
  }

  /** The name ends in `.wav`, `.mp3` or `.m4a`, in any letter case. */
  predicate HasAudioExtension(name: string) {
    && |name| >= 4
    && var ext := name[|name| - 4..];
       MatchesIgnoringCase(ext, ".wav") || MatchesIgnoringCase(ext, ".mp3") || MatchesIgnoringCase(ext, ".m4a")
  }

  predicate EndsWith(s: string, suffix: string) {
    |suffix| <= |s| && s[|s| - |suffix|..] == suffix
  }

  /** A literal with no upper-case ASCII letter in it. */
  predicate LowerLiteral(lit: string) {
    forall k :: 0 <= k < |lit| ==> !('A' <= lit[k] <= 'Z')
  }

  /** Matching a lower-case literal under the `i` flag is comparing the
      lower-cased text with it. */
  lemma MatchesIffLowerCase(s: string, lit: string)
    requires LowerLiteral(lit)
    ensures MatchesIgnoringCase(s, lit) <==> LowerCase(s) == lit
  {
    var low := LowerCase(s);
    if |s| == |lit| {
      forall k | 0 <= k < |s|
        ensures (s[k] == lit[k] || s[k] == AsciiUpper(lit[k])) <==> low[k] == lit[k]
      {
      }
      if low != lit {
        var k :| 0 <= k < |s| && low[k] != lit[k];
      }
    }
  }

  /** A lower-cased name ends with a four-letter lower-case suffix
      exactly when the name's last four characters match it under the `i`
      flag. */
  lemma EndsWithLowerIffMatches(name: string, lit: string)
    requires LowerLiteral(lit) && |lit| == 4
    ensures EndsWith(LowerCase(name), lit) <==> |name| >= 4 && MatchesIgnoringCase(name[|name| - 4..], lit)
  {
    if |name| >= 4 {
      var tail := name[|name| - 4..];
      var low := LowerCase(name);
      var lowTail := LowerCase(tail);
      forall k | 0 <= k < 4 ensures low[|low| - 4..][k] == lowTail[k] {
        assert tail[k] == name[|name| - 4 + k];
      }
      assert low[|low| - 4..] == lowTail;
      MatchesIffLowerCase(tail, lit);
    }
  }

  lemma ExtensionsAreLower()
    ensures LowerLiteral(".wav") && LowerLiteral(".mp3") && LowerLiteral(".m4a")
  {
  }

  /** The pattern test agrees with a plain reading of it: the lower-cased
      name ends with one of the three extensions. */
  lemma HasAudioExtensionIffLowerSuffix(name: string)
    ensures HasAudioExtension(name) <==>
      EndsWith(LowerCase(name), ".wav") || EndsWith(LowerCase(name), ".mp3") || EndsWith(LowerCase(name), ".m4a")
  {
    ExtensionsAreLower();
    EndsWithLowerIffMatches(name, ".wav");
    EndsWithLowerIffMatches(name, ".mp3");
    EndsWithLowerIffMatches(name, ".m4a");
  }

  // ---------------------------------------------------------------------
  // validateFile
  // ---------------------------------------------------------------------

  /** `validateFile`: the type test runs first (a listed MIME type or an
      audio extension is enough), then the size bound of 100 MiB. */
  function ValidateFile(f: AudioFile): (v: Verdict)
    ensures v == UnsupportedType <==> f.mimeType !in AllowedTypes && !HasAudioExtension(f.name)
    ensures v == TooLarge ==> f.size > MaxSize
  {
    if f.mimeType !in AllowedTypes && !HasAudioExtension(f.name) then UnsupportedType
    else if f.size > MaxSize then TooLarge
    else Accepted
  }

  /** A file is accepted exactly when its type is one of the four audio
      types or its lower-cased name ends in an audio extension, and it is at
      most 104857600 bytes long. */
  lemma ValidateFileAccepts(f: AudioFile)
    ensures ValidateFile(f) == Accepted <==>
      && (|| f.mimeType in {"audio/wav", "audio/mpeg", "audio/mp4", "audio/m4a"}
          || EndsWith(LowerCase(f.name), ".wav")
          || EndsWith(LowerCase(f.name), ".mp3")
          || EndsWith(LowerCase(f.name), ".m4a"))
      && f.size <= 104857600
  {
    HasAudioExtensionIffLowerSuffix(f.name);
  }

  /** The type test comes first: an unrecognised file is refused for its
      type whatever its size. */
  lemma TypeCheckedBeforeSize(f: AudioFile, size: nat)
    requires ValidateFile(f) == UnsupportedType
    ensures ValidateFile(f.(size := size)) == UnsupportedType
  {
  }

  /** The size bound is inclusive: 104857600 bytes pass, one more does not. */
  lemma SizeBoundary(f: AudioFile)
    requires ValidateFile(f) != UnsupportedType
    ensures ValidateFile(f.(size := 104857600)) == Accepted
    ensures ValidateFile(f.(size := 104857601)) == TooLarge
  {
  }

  /** An allowed MIME type makes the name irrelevant. */
  lemma AllowedTypeIgnoresName(f: AudioFile, name: string)
    requires f.mimeType in AllowedTypes
    ensures ValidateFile(f.(name := name)) == ValidateFile(f)
    ensures ValidateFile(f) == (if f.size <= MaxSize then Accepted else TooLarge)
  {
  }

  /** An audio extension makes the MIME type irrelevant. */
  lemma AudioExtensionIgnoresType(f: AudioFile, mimeType: string)
    requires HasAudioExtension(f.name)
    ensures ValidateFile(f.(mimeType := mimeType)) == ValidateFile(f)
    ensures ValidateFile(f) == (if f.size <= MaxSize then Accepted else TooLarge)
  {
  }

  // ---------------------------------------------------------------------
  // Decimal text of integers, as JavaScript prints an integral number
  // ---------------------------------------------------------------------

  predicate IsDigit(c: char) {
    '0' <= c <= '9'
  }

  predicate AllDigits(s: string) {
    forall k :: 0 <= k < |s| ==> IsDigit(s[k])
  }

  function DigitChar(d: nat): char
    requires d < 10
  {
    ('0' as int + d) as char
  }

  /** The number a string of decimal digits denotes. */
  function DigitsValue(s: string): nat
    requires AllDigits(s)
  {
    if s == [] then 0 else DigitsValue(s[..|s| - 1]) * 10 + (s[|s| - 1] as int - '0' as int)
  }

  /** The shortest decimal text of a natural number. */
  function NatToString(n: nat): string
    decreases n
  {
    if n < 10 then [DigitChar(n)] else NatToString(n / 10) + [DigitChar(n % 10)]
  }

  /** `NatToString` writes digits only, with no leading zero, and reading
      them back gives the number. */
  lemma {:induction false} NatToStringRoundTrip(n: nat)
    ensures AllDigits(NatToString(n))
    ensures DigitsValue(NatToString(n)) == n
    ensures |NatToString(n)| >= 1 && (|NatToString(n)| > 1 ==> NatToString(n)[0] != '0')
    decreases n
  {
    if n >= 10 {
      NatToStringRoundTrip(n / 10);
      var s := NatToString(n);
      assert s[..|s| - 1] == NatToString(n / 10);
    }
  }

  /** `String(i)` for an integral JavaScript number (below 10^21, where
      JavaScript would switch to exponent notation). */
  function IntToString(i: int): string {
    if i < 0 then "-" + NatToString(-i) else NatToString(i)
  }

  /** `s.padStart(2, '0')`. */
  function PadStart2(s: string): string {
    if |s| == 0 then "00" else if |s| == 1 then "0" + s else s
  }

  /** JavaScript's `%`, whose result takes the sign of the dividend. */
  function JsRem(a: int, b: int): int
    requires b > 0
  {
    if a >= 0 then a % b else -((-a) % b)
  }

  // ---------------------------------------------------------------------
  // estimateDuration, formatDuration and the duration in updateStats
  // ---------------------------------------------------------------------

  /** `estimateDuration`: one MiB is taken as one minute, rounded down to
      whole seconds. */
  function EstimateDuration(size: nat): (seconds: nat)
    ensures seconds * MiB <= size * 60 < (seconds + 1) * MiB
  {
    size * 60 / MiB
  }

  /** `formatDuration`: `Math.floor(s / 60)` minutes, a colon and `s % 60`
      padded to two characters. */
  function FormatDuration(seconds: int): string {
    IntToString(seconds / 60) + ":" + PadStart2(IntToString(JsRem(seconds, 60)))
  }

  /** For a non-negative whole number of seconds the text is `m:ss`: the
      minutes in shortest decimal form, then two digits of seconds below 60,
      and the two together give back the input. */
  lemma FormatDurationIsClock(s: nat)
    ensures var t := FormatDuration(s);
      && |t| >= 4 && t[|t| - 3] == ':'
      && AllDigits(t[..|t| - 3]) && AllDigits(t[|t| - 2..])
      && DigitsValue(t[|t| - 2..]) < 60
      && DigitsValue(t[..|t| - 3]) * 60 + DigitsValue(t[|t| - 2..]) == s
      && (|t| > 4 ==> t[0] != '0')
  {
    var m, ss := s / 60, s % 60;
    NatToStringRoundTrip(m);
    NatToStringRoundTrip(ss);
    var mt, st := NatToString(m), PadStart2(NatToString(ss));
    if ss >= 10 {
      NatToStringRoundTrip(ss / 10);
      assert NatToString(ss / 10) == [DigitChar(ss / 10)];
    }
    assert |st| == 2 && AllDigits(st) && DigitsValue(st) == ss by {
      if ss < 10 {
        assert st == ['0', DigitChar(ss)];
        assert st[..1] == "0";
      }
    }
    var t := FormatDuration(s);
    assert t == mt + ":" + st;
    assert t[..|t| - 3] == mt;
    assert t[|t| - 2..] == st;
  }

  /** The worked values: 125 s shows as `2:05`, 59 s as `0:59`, and a
      negative count shows JavaScript's signed remainder. */
  lemma FormatDurationExamples()
    ensures FormatDuration(125) == "2:05"
    ensures FormatDuration(59) == "0:59"
    ensures FormatDuration(180) == "3:00"
    ensures FormatDuration(-5) == "-1:-5"
  {
  }

  /** The duration `updateStats` shows: `data.duration` when it is present
      and not zero (JavaScript truthiness), otherwise the size estimate. */
  function DisplayedDuration(reported: Option<int>, size: nat): (seconds: int)
    ensures reported.Some? && reported.value != 0 ==> seconds == reported.value
    ensures reported.None? || reported.value == 0 ==>
      0 <= seconds && seconds * MiB <= size * 60 < (seconds + 1) * MiB
  {
    if reported.Some? && reported.value != 0 then reported.value else EstimateDuration(size)
  }

  /** A file of at most 100 MiB with no duration from the server is shown
      as at most 100 minutes; 2 MiB gives 120 s and 3 MiB gives `3:00`. */
  lemma FallbackDurationOfValidFile(size: nat)
    requires size <= MaxSize
    ensures 0 <= DisplayedDuration(None, size) <= 6000
    ensures DisplayedDuration(Some(0), size) == DisplayedDuration(None, size)
    ensures DisplayedDuration(None, 2 * MiB) == 120
    ensures FormatDuration(DisplayedDuration(None, 3 * MiB)) == "3:00"
  {
    FormatDurationExamples();
  }
}
