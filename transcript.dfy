/**
 * Extraction of the transcript from the speech engine's standard output:
 * the output is stripped; if nothing is left there is no transcript,
 * otherwise the transcript is the last newline-separated line of what is
 * left, stripped again.  The engine writes diagnostics on earlier lines.
 */
module Transcript {
  import opened Wrappers
  import opened PyText

  /** `s.split('\n')[-1]`: what follows the last newline of `s`. */
  function LastLine(s: string): string {
    LastPart(Split(s, '\n'))
  }

  /** The text delivered to the clipboard for one run of the engine, or None
      when nothing is delivered.  Only standard output is consulted. */
  function ExtractTranscript(stdout: string): (t: Option<string>)
    ensures t.None? <==> AllSpace(stdout)
    ensures t.Some? ==> t.value != [] && '\n' !in t.value
    ensures t.Some? ==> !IsSpace(t.value[0]) && !IsSpace(t.value[|t.value| - 1])
  {
    var result := Strip(stdout);
    if result == [] then None
    else
      LastLineClean(result);
      Some(Strip(LastLine(result)))
  }

  /** The last line of a string that ends in a non-space character is not
      blank, and stripping it leaves text without a newline. */
  lemma LastLineClean(r: string)
    requires r != [] && !IsSpace(r[|r| - 1])
    ensures Strip(LastLine(r)) != []
    ensures '\n' !in Strip(LastLine(r))
  {
    var line := LastLine(r);
    LastPartSuffix(r, '\n');
    assert line[|line| - 1] == r[|r| - 1];
    var a, b := StripParts(line);
    var t := Strip(line);
    assert '\n' !in line;
    forall i | 0 <= i < |t| ensures t[i] != '\n' {
      assert t[i] == line[|a| + i];
    }
  }

  /** Reference reading of the output: the last line (in the sense of
      `split('\n')`) that holds a non-space character, stripped. */
  function LastNonBlankLine(lines: seq<string>): Option<string>
    decreases |lines|
  {
    if lines == [] then None
    else if AllSpace(lines[|lines| - 1]) then LastNonBlankLine(lines[..|lines| - 1])
    else Some(Strip(lines[|lines| - 1]))
  }

  /** With only blank lines there is no transcript. */
  lemma {:induction false} LastNonBlankAllBlank(lines: seq<string>)
    requires forall i :: 0 <= i < |lines| ==> AllSpace(lines[i])
    ensures LastNonBlankLine(lines) == None
    decreases |lines|
  {
    if lines != [] {
      LastNonBlankAllBlank(lines[..|lines| - 1]);
    }
  }

  /** Blank lines after the last non-blank one do not change the reading. */
  lemma {:induction false} LastNonBlankBlankTail(xs: seq<string>, ys: seq<string>)
    requires forall i :: 0 <= i < |ys| ==> AllSpace(ys[i])
    ensures LastNonBlankLine(xs + ys) == LastNonBlankLine(xs)
    decreases |ys|
  {
    if ys != [] {
      var n := |ys|;
      assert (xs + ys)[..|xs + ys| - 1] == xs + ys[..n - 1];
      assert (xs + ys)[|xs + ys| - 1] == ys[n - 1];
      LastNonBlankBlankTail(xs, ys[..n - 1]);
    } else {
      assert xs + ys == xs;
    }
  }

  /** The reading of a list of lines that ends in a non-blank line. */
  lemma LastNonBlankEndsNonBlank(xs: seq<string>, line: string, ys: seq<string>)
    requires !AllSpace(line)
    requires forall i :: 0 <= i < |ys| ==> AllSpace(ys[i])
    ensures LastNonBlankLine(xs + [line] + ys) == Some(Strip(line))
  {
    LastNonBlankBlankTail(xs + [line], ys);
    assert (xs + [line])[|xs + [line]| - 1] == line;
  }

  /** Stripping the whole output first and then taking its last line is the
      same as taking the last non-blank line of the raw output: the engine's
      transcript is the last line that has any text on it. */
  lemma ExtractIsLastNonBlankLine(stdout: string)
    ensures ExtractTranscript(stdout) == LastNonBlankLine(Split(stdout, '\n'))
  {
    if AllSpace(stdout) {
      SplitAllSpace(stdout, '\n');
      LastNonBlankAllBlank(Split(stdout, '\n'));
    } else {
      var a, b := StripParts(stdout);
      var r := Strip(stdout);
      assert stdout == (a + r) + b;
      assert (a + r)[|a + r| - 1] == r[|r| - 1];
      TrailingSpaceLastLine(a + r, b);
      StripLastLineAfterSpace(a, r);
    }
  }

  /** Trailing whitespace only adds blank lines and pads the last one, so
      the reading is the stripped last line of the text before it. */
  lemma TrailingSpaceLastLine(x: string, b: string)
    requires AllSpace(b)
    requires x != [] && !IsSpace(x[|x| - 1])
    ensures LastNonBlankLine(Split(x + b, '\n')) == Some(Strip(LastLine(x)))
  {
    var p := Split(x, '\n');
    SplitAppend(x, b, '\n');
    LastLineEndsLikeText(x);
    PaddedLastLine(p[..|p| - 1], LastPart(p), b);
  }

  /** A non-blank line padded with whitespace, then only blank lines. */
  lemma PaddedLastLine(xs: seq<string>, line: string, b: string)
    requires line != [] && !IsSpace(line[|line| - 1])
    requires AllSpace(b)
    ensures LastNonBlankLine(xs + [line + Split(b, '\n')[0]] + Split(b, '\n')[1..]) == Some(Strip(line))
  {
    var pb := Split(b, '\n');
    BlankPieces(b);
    assert !AllSpace(line + pb[0]) by {
      assert (line + pb[0])[|line| - 1] == line[|line| - 1];
    }
    LastNonBlankEndsNonBlank(xs, line + pb[0], pb[1..]);
    StripPaddedRight(line, pb[0]);
  }

  /** Trailing whitespace does not change the stripped text. */
  lemma StripPaddedRight(line: string, pad: string)
    requires AllSpace(pad)
    ensures Strip(line + pad) == Strip(line)
  {
    assert line + pad == [] + line + pad;
    StripPadded([], line, pad);
  }

  /** The last line of a text that ends in a non-space character ends in
      that same character. */
  lemma LastLineEndsLikeText(x: string)
    requires x != [] && !IsSpace(x[|x| - 1])
    ensures LastLine(x) != [] && LastLine(x)[|LastLine(x)| - 1] == x[|x| - 1]
  {
    LastPartSuffix(x, '\n');
  }

  /** The pieces of a split of whitespace, first piece and the rest. */
  lemma BlankPieces(b: string)
    requires AllSpace(b)
    ensures AllSpace(Split(b, '\n')[0])
    ensures forall i :: 0 <= i < |Split(b, '\n')[1..]| ==> AllSpace(Split(b, '\n')[1..][i])
  {
    var pb := Split(b, '\n');
    SplitAllSpace(b, '\n');
    forall i | 0 <= i < |pb[1..]| ensures AllSpace(pb[1..][i]) {
      assert pb[1..][i] == pb[i + 1];
    }
  }

  /** Leading whitespace does not change the stripped last line. */
  lemma StripLastLineAfterSpace(a: string, r: string)
    requires AllSpace(a)
    ensures Strip(LastLine(a + r)) == Strip(LastLine(r))
  {
    SplitAppend(a, r, '\n');
    var pa := Split(a, '\n');
    var pr := Split(r, '\n');
    if |pr| == 1 {
      SplitAllSpace(a, '\n');
      assert LastLine(a + r) == LastPart(pa) + pr[0];
      assert LastPart(pa) + pr[0] == LastPart(pa) + pr[0] + [];
      StripPadded(LastPart(pa), pr[0], []);
    } else {
      assert LastLine(a + r) == LastPart(pr);
    }
  }
}
