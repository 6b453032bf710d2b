/**
  The parts of Python's `str` that the backend relies on: the whitespace
  class behind `str.isspace()`, `strip()` with no argument, `split()` with
  no argument (the list of whitespace-separated words) and `" ".join(...)`.
 */
module PyStrings {

  /** A character Python's `str.isspace()` accepts: bidirectional class
      WS, B or S, or general category Zs. */
  predicate IsSpace(c: char) {
    || ('\t' <= c <= '\r')
    || ('\U{1C}' <= c <= '\U{1F}')
    || c == ' '
    || c == '\U{85}'
    || c == '\U{A0}'
    || c == '\U{1680}'
    || ('\U{2000}' <= c <= '\U{200A}')
    || c == '\U{2028}'
    || c == '\U{2029}'
    || c == '\U{202F}'
    || c == '\U{205F}'
    || c == '\U{3000}'
  }

  predicate AllSpace(s: string) {
    forall k :: 0 <= k < |s| ==> IsSpace(s[k])
  }

  predicate NoSpace(s: string) {
    forall k :: 0 <= k < |s| ==> !IsSpace(s[k])
  }

  /** Neither the first nor the last character of `s` is whitespace. */
  predicate NoOuterSpace(s: string) {
    s != [] ==> !IsSpace(s[0]) && !IsSpace(s[|s| - 1])
  }

  /** `r` sits in `s` at offset `at` with only whitespace around it. */
  predicate FramedBySpace(s: string, at: nat, r: string) {
    && at + |r| <= |s|
    && s[at..at + |r|] == r
    && AllSpace(s[..at])
    && AllSpace(s[at + |r|..])
  }

  /** `s` with its leading whitespace removed. */
  function TrimStart(s: string): string {
    if s != [] && IsSpace(s[0]) then TrimStart(s[1..]) else s
  }

  /** `s` with its trailing whitespace removed. */
  function TrimEnd(s: string): string {
    if s != [] && IsSpace(s[|s| - 1]) then TrimEnd(s[..|s| - 1]) else s
  }

  /** `TrimStart` keeps a suffix of `s`, cuts only whitespace and leaves
      no whitespace at the front. */
  lemma {:induction false} TrimStartSpec(s: string)
    ensures |TrimStart(s)| <= |s| && TrimStart(s) == s[|s| - |TrimStart(s)|..]
    ensures AllSpace(s[..|s| - |TrimStart(s)|])
    ensures TrimStart(s) != [] ==> !IsSpace(TrimStart(s)[0])
  {
    if s != [] && IsSpace(s[0]) {
      TrimStartSpec(s[1..]);
      var r := TrimStart(s[1..]);
      assert s[1..][..|s| - 1 - |r|] == s[1..|s| - |r|];
    }
  }

  /** `TrimEnd` keeps a prefix of `s`, cuts only whitespace and leaves no
      whitespace at the back. */
  lemma {:induction false} TrimEndSpec(s: string)
    ensures |TrimEnd(s)| <= |s| && TrimEnd(s) == s[..|TrimEnd(s)|]
    ensures AllSpace(s[|TrimEnd(s)|..])
    ensures TrimEnd(s) != [] ==> !IsSpace(TrimEnd(s)[|TrimEnd(s)| - 1])
  {
    if s != [] && IsSpace(s[|s| - 1]) {
      TrimEndSpec(s[..|s| - 1]);
      var r := TrimEnd(s[..|s| - 1]);
      assert s[..|s| - 1][|r|..] == s[|r|..|s| - 1];
      assert s[|r|..] == s[|r|..|s| - 1] + [s[|s| - 1]];
    }
  }

  /** Python's `s.strip()`: the text that remains once whitespace is cut
      from both ends. It neither begins nor ends with whitespace, and it is
      empty exactly when `s` is all whitespace. */
  function Strip(s: string): (r: string)
    ensures NoOuterSpace(r)
    ensures r == [] <==> AllSpace(s)
  {
    var t := TrimStart(s);
    TrimStartSpec(s);
    TrimEndSpec(t);
    var r := TrimEnd(t);
    assert r == [] ==> AllSpace(s) by {
      if r == [] {
        var at := |s| - |t|;
        assert t[|r|..] == t;
        forall k | 0 <= k < |s| ensures IsSpace(s[k]) {
          assert s[..at][k] == s[k];
        }
      }
    }
    r
  }

  /** What `Strip` removes is whitespace on either side: the result sits
      in `s` with only whitespace before and after it. */
  lemma StripIsFramed(s: string)
    ensures exists at :: FramedBySpace(s, at, Strip(s))
  {
    var t := TrimStart(s);
    TrimStartSpec(s);
    TrimEndSpec(t);
    var r := TrimEnd(t);
    assert r == Strip(s);
    var at := |s| - |t|;
    assert s[at..at + |r|] == r;
    assert s[at + |r|..] == t[|r|..];
    assert FramedBySpace(s, at, r);
  }

  /** Length of the run of non-whitespace characters that starts `s`. */
  function RunLength(s: string): (n: nat)
    ensures n <= |s|
    ensures forall k :: 0 <= k < n ==> !IsSpace(s[k])
    ensures n < |s| ==> IsSpace(s[n])
  {
    if s == [] || IsSpace(s[0]) then 0 else 1 + RunLength(s[1..])
  }

  /** Python's `s.split()`: the maximal runs of non-whitespace characters,
      in order. */
  function Words(s: string): seq<string>
    decreases |s|
  {
    if s == [] then []
    else if IsSpace(s[0]) then Words(s[1..])
    else
      var n := RunLength(s);
      [s[..n]] + Words(s[n..])
  }

  /** Every word `split()` yields is non-empty and free of whitespace. */
  lemma {:induction false} WordsAreRuns(s: string)
    ensures forall k :: 0 <= k < |Words(s)| ==> Words(s)[k] != [] && NoSpace(Words(s)[k])
    decreases |s|
  {
    if s == [] {
    } else if IsSpace(s[0]) {
      WordsAreRuns(s[1..]);
    } else {
      var n := RunLength(s);
      WordsAreRuns(s[n..]);
      assert NoSpace(s[..n]);
    }
  }

  /** A run of non-whitespace characters is read to its end. */
  lemma {:induction false} RunLengthOfNoSpace(s: string)
    requires NoSpace(s)
    ensures RunLength(s) == |s|
    decreases |s|
  {
    if s != [] {
      assert NoSpace(s[1..]) by {
        forall k | 0 <= k < |s| - 1 ensures !IsSpace(s[1..][k]) {
          assert s[1..][k] == s[k + 1];
        }
      }
      RunLengthOfNoSpace(s[1..]);
    }
  }

  /** A whole run of non-whitespace characters is one word: `split()` does
      not cut inside a run. With `WordsOfAppend` and `AllSpaceHasNoWords`
      this fixes `Words` on every string. */
  lemma WordOfRun(s: string)
    requires s != [] && NoSpace(s)
    ensures Words(s) == [s]
  {
    RunLengthOfNoSpace(s);
    assert s[..|s|] == s;
    assert s[|s|..] == [];
  }

  /** Python's `" ".join(xs)`. */
  function JoinWithSpace(xs: seq<string>): string {
    if |xs| == 0 then ""
    else if |xs| == 1 then xs[0]
    else xs[0] + " " + JoinWithSpace(xs[1..])
  }

  /** The words of every string of `xs`, one string after the other. */
  function ConcatWords(xs: seq<string>): seq<string> {
    if xs == [] then [] else Words(xs[0]) + ConcatWords(xs[1..])
  }

  /** A string has no words exactly when it is empty or all whitespace. */
  lemma {:induction false} WordsEmptyIffAllSpace(s: string)
    ensures Words(s) == [] <==> AllSpace(s)
    decreases |s|
  {
    if s != [] && IsSpace(s[0]) {
      WordsEmptyIffAllSpace(s[1..]);
      assert AllSpace(s[1..]) ==> AllSpace(s) by {
        if AllSpace(s[1..]) {
          forall k | 0 <= k < |s| ensures IsSpace(s[k]) {
            if k > 0 { assert s[1..][k - 1] == s[k]; }
          }
        }
      }
    }
  }

  /** The run at the front of `a + b` is the run at the front of `a` when
      `a` ends in whitespace or `b` starts with it. */
  lemma {:induction false} RunLengthOfAppend(a: string, b: string)
    requires RunLength(a) < |a| || b == [] || IsSpace(b[0])
    ensures RunLength(a + b) == RunLength(a)
    decreases |a|
  {
    if a == [] {
      assert a + b == b;
    } else if !IsSpace(a[0]) {
      assert (a + b)[1..] == a[1..] + b;
      RunLengthOfAppend(a[1..], b);
    }
  }

  /** Splitting at a whitespace boundary: the words of `a + b` are the
      words of `a` followed by the words of `b`. */
  lemma {:induction false} WordsOfAppend(a: string, b: string)
    requires a == [] || b == [] || IsSpace(a[|a| - 1]) || IsSpace(b[0])
    ensures Words(a + b) == Words(a) + Words(b)
    decreases |a|, 1
  {
    if a == [] {
      assert a + b == b;
    } else if IsSpace(a[0]) {
      assert (a + b)[1..] == a[1..] + b;
      WordsOfAppend(a[1..], b);
    } else {
      WordsOfAppendAtWord(a, b);
    }
  }

  /** `WordsOfAppend` when `a` starts with a word: that word is also the
      first word of `a + b`. */
  lemma {:induction false} WordsOfAppendAtWord(a: string, b: string)
    requires a != [] && !IsSpace(a[0])
    requires b == [] || IsSpace(a[|a| - 1]) || IsSpace(b[0])
    ensures Words(a + b) == Words(a) + Words(b)
    decreases |a|, 0
  {
    var m := RunLength(a);
    assert m < |a| || b == [] || IsSpace(b[0]) by {
      if m == |a| { assert !IsSpace(a[|a| - 1]); }
    }
    RunLengthOfAppend(a, b);
    var ab := a + b;
    assert ab[..m] == a[..m];
    assert ab[m..] == a[m..] + b;
    WordsOfAppend(a[m..], b);
    calc {
      Words(ab);
      [ab[..m]] + Words(ab[m..]);
      [a[..m]] + (Words(a[m..]) + Words(b));
      ([a[..m]] + Words(a[m..])) + Words(b);
      Words(a) + Words(b);
    }
  }

  lemma AllSpaceHasNoWords(s: string)
    requires AllSpace(s)
    ensures Words(s) == []
  {
    WordsEmptyIffAllSpace(s);
  }

  /** Stripping never changes the words of a string. */
  lemma WordsOfStrip(s: string)
    ensures Words(Strip(s)) == Words(s)
  {
    var r := Strip(s);
    StripIsFramed(s);
    var at: nat :| FramedBySpace(s, at, r);
    var lead, rest := s[..at], s[at + |r|..];
    assert s == lead + (r + rest);
    assert lead == [] || IsSpace(lead[|lead| - 1]);
    assert rest == [] || IsSpace(rest[0]);
    WordsOfAppend(r, rest);
    WordsOfAppend(lead, r + rest);
    AllSpaceHasNoWords(lead);
    AllSpaceHasNoWords(rest);
    calc {
      Words(s);
      Words(lead) + Words(r + rest);
      Words(lead) + (Words(r) + Words(rest));
      [] + (Words(r) + []);
      Words(r);
    }
  }

  /** The words of a space-joined list are the words of its members. */
  lemma {:induction false} WordsOfJoin(xs: seq<string>)
    ensures Words(JoinWithSpace(xs)) == ConcatWords(xs)
  {
    if |xs| == 0 {
    } else if |xs| == 1 {
      assert ConcatWords(xs[1..]) == [];
    } else {
      var tail := JoinWithSpace(xs[1..]);
      assert xs[0] + " " + tail == xs[0] + (" " + tail);
      WordsOfAppend(xs[0], " " + tail);
      assert (" " + tail)[1..] == tail;
      WordsOfJoin(xs[1..]);
    }
  }
}
