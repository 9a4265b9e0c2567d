/**
 * The Python string operations the dictation script relies on:
 * `str.strip()` with no argument and `str.split(sep)` with a one-character
 * separator, together with `sep.join(...)` as the inverse of the split.
 */
module PyText {

  /** Python's `str.isspace()` for one character: the characters whose
      Unicode bidirectional class is WS, B or S, or whose category is Zs. */
  predicate IsSpace(c: char) {
    var n := c as int;
    (0x09 <= n <= 0x0D) || (0x1C <= n <= 0x20) || n == 0x85 || n == 0xA0
    || n == 0x1680 || (0x2000 <= n <= 0x200A) || n == 0x2028 || n == 0x2029
    || n == 0x202F || n == 0x205F || n == 0x3000
  }

  /** Every character of `s` is whitespace (vacuously true of ""). */
  predicate AllSpace(s: string) {
    forall i :: 0 <= i < |s| ==> IsSpace(s[i])
  }

  /** `s.lstrip()`: the suffix of `s` left after dropping leading whitespace. */
  function LStrip(s: string): (r: string)
    ensures |r| <= |s| && r == s[|s| - |r|..]
    ensures AllSpace(s[..|s| - |r|])
    ensures r != [] ==> !IsSpace(r[0])
    decreases |s|
  {
    if s != [] && IsSpace(s[0]) then LStrip(s[1..]) else s
  }

  /** `s.rstrip()`: the prefix of `s` left after dropping trailing whitespace. */
  function RStrip(s: string): (r: string)
    ensures |r| <= |s| && r == s[..|r|]
    ensures AllSpace(s[|r|..])
    ensures r != [] ==> !IsSpace(r[|r| - 1])
    decreases |s|
  {
    if s != [] && IsSpace(s[|s| - 1]) then
      var r := RStrip(s[..|s| - 1]);
      assert s[|r|..] == s[..|s| - 1][|r|..] + [s[|s| - 1]];
      r
    else s
  }

  lemma LStripEmpty(s: string)
    ensures LStrip(s) == [] <==> AllSpace(s)
  {
    var l := LStrip(s);
    if l == [] {
      assert s[..|s|] == s;
    } else {
      assert l[0] == s[|s| - |l|];
    }
  }

  lemma RStripEmpty(s: string)
    ensures RStrip(s) == [] <==> AllSpace(s)
  {
    var r := RStrip(s);
    if r == [] {
      assert s[0..] == s;
    } else {
      assert r[|r| - 1] == s[|r| - 1];
    }
  }

  /** `s.strip()`: both ends trimmed.  It is empty exactly when `s` is all
      whitespace, and otherwise starts and ends with a non-space character. */
  function Strip(s: string): (r: string)
    ensures r == [] <==> AllSpace(s)
    ensures r != [] ==> !IsSpace(r[0]) && !IsSpace(r[|r| - 1])
  {
    StripEnds(s, LStrip(s), RStrip(LStrip(s)));
    RStrip(LStrip(s))
  }

  lemma StripEnds(s: string, l: string, r: string)
    requires l == LStrip(s) && r == RStrip(l)
    ensures r == [] <==> AllSpace(s)
    ensures r != [] ==> !IsSpace(r[0]) && !IsSpace(r[|r| - 1])
  {
    LStripEmpty(s);
    RStripEmpty(l);
    if r != [] {
      assert r[0] == l[0];
    }
  }

  /** LStrip cuts only leading whitespace. */
  lemma LStripParts(s: string) returns (a: string)
    ensures s == a + LStrip(s) && AllSpace(a)
  {
    a := s[..|s| - |LStrip(s)|];
  }

  /** RStrip cuts only trailing whitespace. */
  lemma RStripParts(s: string) returns (b: string)
    ensures s == RStrip(s) + b && AllSpace(b)
  {
    b := s[|RStrip(s)|..];
  }

  /** Reassociation, kept apart from the `Strip` facts in `StripParts` so
      that step stays cheap. */
  lemma ConcatAssoc(a: string, m: string, b: string)
    ensures a + (m + b) == a + m + b
  {
  }

  /** Strip leaves exactly a middle part of its input, with only whitespace
      cut away on either side. */
  lemma StripParts(s: string) returns (a: string, b: string)
    ensures s == a + Strip(s) + b
    ensures AllSpace(a) && AllSpace(b)
  {
    var l := LStrip(s);
    a := LStripParts(s);
    b := RStripParts(l);
    assert Strip(s) == RStrip(l);
    ConcatAssoc(a, RStrip(l), b);
  }

  /** Every character of a concatenation of whitespace is whitespace. */
  lemma AllSpaceAppend(x: string, y: string)
    requires AllSpace(x) && AllSpace(y)
    ensures AllSpace(x + y)
  {
    forall i | 0 <= i < |x + y| ensures IsSpace((x + y)[i]) {
      if i < |x| { assert (x + y)[i] == x[i]; } else { assert (x + y)[i] == y[i - |x|]; }
    }
  }

  /** LStrip of whitespace followed by a part that starts with a non-space. */
  lemma LStripPadded(a: string, m: string)
    requires AllSpace(a)
    requires m != [] && !IsSpace(m[0])
    ensures LStrip(a + m) == m
  {
    var s := a + m;
    var l := LStrip(s);
    var k := |s| - |l|;
    assert s[|a|] == m[0];
    assert k == |a|;
  }

  /** RStrip of a part that ends with a non-space followed by whitespace. */
  lemma RStripPadded(m: string, b: string)
    requires AllSpace(b)
    requires m != [] && !IsSpace(m[|m| - 1])
    ensures RStrip(m + b) == m
  {
    var s := m + b;
    var r := RStrip(s);
    var j := |r|;
    assert s[|m| - 1] == m[|m| - 1];
    assert j == |m|;
  }

  /** The decomposition of StripParts is unique: whatever whitespace padding
      surrounds a middle part that starts and ends with a non-space (or is
      empty), Strip returns that middle part. */
  lemma StripUnique(a: string, m: string, b: string)
    requires AllSpace(a) && AllSpace(b)
    requires m == [] || (!IsSpace(m[0]) && !IsSpace(m[|m| - 1]))
    ensures Strip(a + m + b) == m
  {
    if m == [] {
      assert a + m + b == a + b;
      AllSpaceAppend(a, b);
    } else {
      assert a + m + b == a + (m + b);
      LStripPadded(a, m + b);
      RStripPadded(m, b);
    }
  }

  /** Regrouping five concatenated pieces, kept apart from the `Strip`
      facts in `StripPadded` so that step stays cheap. */
  lemma Regroup(a: string, a': string, c: string, b': string, b: string)
    ensures a + (a' + c + b') + b == (a + a') + c + (b' + b)
  {
  }

  /** Stripping ignores whitespace padding added on either side. */
  lemma StripPadded(a: string, m: string, b: string)
    requires AllSpace(a) && AllSpace(b)
    ensures Strip(a + m + b) == Strip(m)
  {
    var a', b' := StripParts(m);
    var core := Strip(m);
    Regroup(a, a', core, b', b);
    AllSpaceAppend(a, a');
    AllSpaceAppend(b', b);
    StripUnique(a + a', core, b' + b);
  }

  /** `s.split(sep)`: the pieces between occurrences of `sep`, in order.
      There is always at least one piece (`"".split(sep) == [""]`), and no
      piece contains the separator. */
  function Split(s: string, sep: char): (parts: seq<string>)
    ensures |parts| >= 1
    ensures forall i :: 0 <= i < |parts| ==> sep !in parts[i]
    decreases |s|
  {
    if s == [] then [[]]
    else
      var rest := Split(s[1..], sep);
      if s[0] == sep then [[]] + rest
      else [[s[0]] + rest[0]] + rest[1..]
  }

  /** The last piece of a split: what follows the last separator. */
  function LastPart(parts: seq<string>): string
    requires |parts| >= 1
  {
    parts[|parts| - 1]
  }

  /** `sep.join(parts)` for a non-empty list of pieces. */
  function Join(parts: seq<string>, sep: char): (s: string)
    requires |parts| >= 1
    decreases |parts|
  {
    if |parts| == 1 then parts[0] else parts[0] + [sep] + Join(parts[1..], sep)
  }

  /** Split of a string that starts with the separator. */
  lemma SplitConsSep(t: string, sep: char)
    ensures Split([sep] + t, sep) == [[]] + Split(t, sep)
  {
    assert ([sep] + t)[1..] == t;
  }

  /** Split of a string that starts with another character. */
  lemma SplitConsOther(c: char, t: string, sep: char)
    requires c != sep
    ensures Split([c] + t, sep) == [[c] + Split(t, sep)[0]] + Split(t, sep)[1..]
  {
    assert ([c] + t)[1..] == t;
  }

  /** `r` is `p` followed by `q`, with the last piece of `p` glued to the
      first piece of `q`. */
  predicate Glued(p: seq<string>, q: seq<string>, r: seq<string>)
    requires |p| >= 1 && |q| >= 1
  {
    r == p[..|p| - 1] + [LastPart(p) + q[0]] + q[1..]
  }

  /** Splitting a concatenation splits each half and glues the last piece of
      the first half to the first piece of the second. */
  lemma {:induction false} SplitAppend(x: string, y: string, sep: char)
    ensures Glued(Split(x, sep), Split(y, sep), Split(x + y, sep))
    decreases |x|
  {
    if x == [] {
      assert x + y == y;
      SplitAppendEmptyCase(Split(y, sep));
    } else {
      SplitAppend(x[1..], y, sep);
      assert x == [x[0]] + x[1..];
      SplitAppendStep(x[0], x[1..], y, sep);
    }
  }

  /** The inductive step of SplitAppend. */
  lemma SplitAppendStep(c: char, x: string, y: string, sep: char)
    requires Glued(Split(x, sep), Split(y, sep), Split(x + y, sep))
    ensures Glued(Split([c] + x, sep), Split(y, sep), Split([c] + x + y, sep))
  {
    assert [c] + x + y == [c] + (x + y);
    if c == sep {
      SplitAppendSepStep(x, y, sep);
    } else {
      SplitAppendOtherStep(c, x, y, sep);
    }
  }

  lemma SplitAppendSepStep(x: string, y: string, sep: char)
    requires Glued(Split(x, sep), Split(y, sep), Split(x + y, sep))
    ensures Glued(Split([sep] + x, sep), Split(y, sep), Split([sep] + (x + y), sep))
  {
    var px := Split(x, sep);
    var py := Split(y, sep);
    var tail := [LastPart(px) + py[0]] + py[1..];
    SplitConsSep(x, sep);
    SplitConsSep(x + y, sep);
    SplitAppendSepCase(px, Split(x + y, sep), tail);
  }

  lemma SplitAppendOtherStep(c: char, x: string, y: string, sep: char)
    requires c != sep
    requires Glued(Split(x, sep), Split(y, sep), Split(x + y, sep))
    ensures Glued(Split([c] + x, sep), Split(y, sep), Split([c] + (x + y), sep))
  {
    SplitConsOther(c, x, sep);
    SplitConsOther(c, x + y, sep);
    SplitAppendOtherCase(c, Split(x, sep), Split(x + y, sep), Split(y, sep));
  }

  lemma SplitAppendEmptyCase(py: seq<string>)
    requires |py| >= 1
    ensures py == [[]][..0] + [LastPart([[]]) + py[0]] + py[1..]
  {
    assert [] + py[0] == py[0];
    assert [py[0]] + py[1..] == py;
  }

  lemma SplitAppendSepCase(px: seq<string>, pxy: seq<string>, tail: seq<string>)
    requires |px| >= 1
    requires pxy == px[..|px| - 1] + tail
    ensures [[]] + pxy == ([[]] + px)[..|px|] + tail
    ensures LastPart([[]] + px) == LastPart(px)
  {
    assert ([[]] + px)[..|px|] == [[]] + px[..|px| - 1];
  }

  lemma SplitAppendOtherCase(c: char, px: seq<string>, pxy: seq<string>, py: seq<string>)
    requires |px| >= 1 && |py| >= 1
    requires pxy == px[..|px| - 1] + [LastPart(px) + py[0]] + py[1..]
    ensures var sx := [[c] + px[0]] + px[1..];
      [[c] + pxy[0]] + pxy[1..] == sx[..|sx| - 1] + [LastPart(sx) + py[0]] + py[1..]
  {
    var n := |px|;
    var sx := [[c] + px[0]] + px[1..];
    if n == 1 {
      assert pxy[0] == px[0] + py[0];
      assert [c] + pxy[0] == ([c] + px[0]) + py[0];
      assert pxy[1..] == py[1..];
    } else {
      assert pxy[0] == px[0];
      assert pxy[1..] == px[1..n - 1] + [LastPart(px) + py[0]] + py[1..];
      assert sx[..|sx| - 1] == [[c] + px[0]] + px[1..n - 1];
    }
  }

  /** A string without the separator splits into itself alone. */
  lemma {:induction false} SplitNoSep(s: string, sep: char)
    requires sep !in s
    ensures Split(s, sep) == [s]
    decreases |s|
  {
    if s != [] {
      assert sep !in s[1..];
      SplitNoSep(s[1..], sep);
      assert [s[0]] + s[1..] == s;
    }
  }

  /** Joining the pieces of a split gives back the original string. */
  lemma {:induction false} JoinSplit(s: string, sep: char)
    ensures Join(Split(s, sep), sep) == s
    decreases |s|
  {
    if s != [] {
      var rest := Split(s[1..], sep);
      JoinSplit(s[1..], sep);
      if s[0] == sep {
        assert Split(s, sep)[1..] == rest;
      } else if |rest| == 1 {
        assert Split(s, sep) == [[s[0]] + rest[0]];
      } else {
        var parts := Split(s, sep);
        assert parts[1..] == rest[1..];
        assert Join(rest, sep) == rest[0] + [sep] + Join(rest[1..], sep);
      }
    }
  }

  /** Splitting a join of separator-free pieces gives back the pieces. */
  lemma {:induction false} SplitJoin(parts: seq<string>, sep: char)
    requires |parts| >= 1
    requires forall i :: 0 <= i < |parts| ==> sep !in parts[i]
    ensures Split(Join(parts, sep), sep) == parts
    decreases |parts|
  {
    SplitNoSep(parts[0], sep);
    if |parts| > 1 {
      SplitJoin(parts[1..], sep);
      var tail := [sep] + Join(parts[1..], sep);
      assert Split(tail, sep) == [[]] + parts[1..];
      SplitAppend(parts[0], tail, sep);
      assert parts[0] + [] == parts[0];
      assert Join(parts, sep) == parts[0] + tail;
    }
  }

  /** The last piece of a split is a suffix of the string, and it is
      non-empty when the string ends in a character other than the separator. */
  lemma {:induction false} LastPartSuffix(s: string, sep: char)
    ensures |LastPart(Split(s, sep))| <= |s|
    ensures LastPart(Split(s, sep)) == s[|s| - |LastPart(Split(s, sep))|..]
    ensures s != [] && s[|s| - 1] != sep ==> LastPart(Split(s, sep)) != []
    decreases |s|
  {
    if s != [] {
      LastPartSuffix(s[1..], sep);
      var rest := Split(s[1..], sep);
      var last := LastPart(rest);
      if s[0] == sep || |rest| > 1 {
        assert LastPart(Split(s, sep)) == last;
      } else {
        JoinSplit(s[1..], sep);
        assert last == s[1..];
        assert LastPart(Split(s, sep)) == [s[0]] + last;
        assert s == [s[0]] + s[1..];
      }
    }
  }

  /** Every piece of an all-whitespace string is all whitespace. */
  lemma {:induction false} SplitAllSpace(s: string, sep: char)
    requires AllSpace(s)
    ensures forall i :: 0 <= i < |Split(s, sep)| ==> AllSpace(Split(s, sep)[i])
    decreases |s|
  {
    if s != [] {
      SplitAllSpace(s[1..], sep);
    }
  }
}
