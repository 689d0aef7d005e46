/** The string primitives the controller leans on, with Python's meaning:
    `str.split(sep)` for a one-character separator, `str.splitlines()`,
    the `'\n'`-terminated lines the ledger is written back as, and `str(n)`
    for a non-negative int. */
module Text {

  // ---------------------------------------------------------------------------
  // str.split(sep) and its inverse sep.join(parts)
  // ---------------------------------------------------------------------------

  /** `s.split(sep)`: the pieces of `s` between occurrences of `sep`, always at
      least one (`"".split(",") == [""]`). */
  function Split(s: string, sep: char): (parts: seq<string>)
    ensures |parts| >= 1
    decreases |s|
  {
    if |s| == 0 then [""]
    else
      var rest := Split(s[1..], sep);
      if s[0] == sep then [""] + rest
      else [[s[0]] + rest[0]] + rest[1..]
  }

  /** `sep.join(parts)`. */
  function Join(parts: seq<string>, sep: char): string
  {
    if |parts| == 0 then ""
    else if |parts| == 1 then parts[0]
    else parts[0] + [sep] + Join(parts[1..], sep)
  }

  /** The pieces of a split never contain the separator. */
  lemma {:induction false} SplitAvoids(s: string, sep: char)
    ensures forall i :: 0 <= i < |Split(s, sep)| ==> sep !in Split(s, sep)[i]
    decreases |s|
  {
    if |s| > 0 {
      var rest := Split(s[1..], sep);
      SplitAvoids(s[1..], sep);
      var parts := Split(s, sep);
      if s[0] == sep {
        assert parts == [""] + rest;
        forall i | 0 <= i < |parts| ensures sep !in parts[i] {
          if i > 0 { assert parts[i] == rest[i - 1]; }
        }
      } else {
        assert parts == [[s[0]] + rest[0]] + rest[1..];
        forall i | 0 <= i < |parts| ensures sep !in parts[i] {
          if i > 0 { assert parts[i] == rest[i]; }
        }
      }
    }
  }

  /** The pieces of a split never contain the separator, and joining them
      again gives back the original string. */
  lemma {:induction false} JoinSplit(s: string, sep: char)
    ensures forall i :: 0 <= i < |Split(s, sep)| ==> sep !in Split(s, sep)[i]
    ensures Join(Split(s, sep), sep) == s
    decreases |s|
  {
    SplitAvoids(s, sep);
    if |s| > 0 {
      var rest := Split(s[1..], sep);
      JoinSplit(s[1..], sep);
      var parts := Split(s, sep);
      if s[0] == sep {
        assert parts == [""] + rest;
        if |rest| == 1 {
          assert Join(parts, sep) == "" + [sep] + rest[0];
        } else {
          assert Join(parts, sep) == "" + [sep] + Join(rest, sep);
        }
      } else {
        assert parts == [[s[0]] + rest[0]] + rest[1..];
        if |rest| == 1 {
          assert Join(parts, sep) == [s[0]] + rest[0];
        } else {
          assert Join(rest, sep) == rest[0] + [sep] + Join(rest[1..], sep);
          assert Join(parts, sep) == [s[0]] + rest[0] + [sep] + Join(rest[1..], sep);
        }
      }
      assert s == [s[0]] + s[1..];
    }
  }

  /** A string without the separator splits into itself alone. */
  lemma {:induction false} SplitNoSep(s: string, sep: char)
    requires sep !in s
    ensures Split(s, sep) == [s]
    decreases |s|
  {
    if |s| > 0 {
      assert sep !in s[1..];
      SplitNoSep(s[1..], sep);
      assert [s[0]] + s[1..] == s;
    }
  }

  /** Splitting `x + sep + t` where `x` has no separator peels `x` off. */
  lemma {:induction false} SplitAfter(x: string, t: string, sep: char)
    requires sep !in x
    ensures Split(x + [sep] + t, sep) == [x] + Split(t, sep)
    decreases |x|
  {
    var s := x + [sep] + t;
    if |x| == 0 {
      assert s == [sep] + t;
      assert s[1..] == t;
    } else {
      assert s[1..] == x[1..] + [sep] + t;
      assert sep !in x[1..];
      SplitAfter(x[1..], t, sep);
      assert [x[0]] + x[1..] == x;
    }
  }

  /** Joining pieces that do not contain the separator and splitting again
      gives back the pieces. */
  lemma {:induction false} SplitJoin(parts: seq<string>, sep: char)
    requires |parts| >= 1
    requires forall i :: 0 <= i < |parts| ==> sep !in parts[i]
    ensures Split(Join(parts, sep), sep) == parts
    decreases |parts|
  {
    if |parts| == 1 {
      SplitNoSep(parts[0], sep);
    } else {
      SplitJoin(parts[1..], sep);
      SplitAfter(parts[0], Join(parts[1..], sep), sep);
      assert [parts[0]] + parts[1..] == parts;
    }
  }

  /** A character other than the separator that occurs in no piece does not
      occur in the joined string. */
  lemma {:induction false} JoinAvoids(parts: seq<string>, sep: char, c: char)
    requires c != sep
    requires forall i :: 0 <= i < |parts| ==> c !in parts[i]
    ensures c !in Join(parts, sep)
    decreases |parts|
  {
    if |parts| > 1 {
      JoinAvoids(parts[1..], sep, c);
    }
  }

  // ---------------------------------------------------------------------------
  // str.splitlines() and the '\n'-terminated form the ledger is written in
  // ---------------------------------------------------------------------------

  /** The characters `str.splitlines()` breaks lines at. */
  predicate IsLineBreak(c: char)
  {
    c == '\n' || c == '\r' || c == '\U{B}' || c == '\U{C}' || c == '\U{1C}' || c == '\U{1D}'
    || c == '\U{1E}' || c == '\U{85}' || c == '\U{2028}' || c == '\U{2029}'
  }

  predicate NoBreaks(s: string)
  {
    forall i :: 0 <= i < |s| ==> !IsLineBreak(s[i])
  }

  /** Length of the line break at the start of `s`: `"\r\n"` counts as one. */
  function BreakWidth(s: string): nat
    requires |s| > 0
  {
    if s[0] == '\r' && |s| > 1 && s[1] == '\n' then 2 else 1
  }

  /** `s.splitlines()`: the lines of `s` without their line breaks; a final
      line break does not open an empty last line. */
  function SplitLines(s: string): (lines: seq<string>)
    ensures |s| > 0 ==> |lines| > 0
    decreases |s|
  {
    if |s| == 0 then []
    else if IsLineBreak(s[0]) then [""] + SplitLines(s[BreakWidth(s)..])
    else
      var rest := SplitLines(s[1..]);
      if |rest| == 0 then [[s[0]]] else [[s[0]] + rest[0]] + rest[1..]
  }

  /** No line `splitlines()` returns contains a line break. */
  lemma {:induction false} SplitLinesNoBreaks(s: string)
    ensures forall i :: 0 <= i < |SplitLines(s)| ==> NoBreaks(SplitLines(s)[i])
    decreases |s|
  {
    if |s| > 0 {
      if IsLineBreak(s[0]) {
        SplitLinesNoBreaks(s[BreakWidth(s)..]);
      } else {
        SplitLinesNoBreaks(s[1..]);
        var rest := SplitLines(s[1..]);
        if |rest| > 0 {
          var first := [s[0]] + rest[0];
          assert NoBreaks(rest[0]);
          assert forall k :: 0 < k < |first| ==> first[k] == rest[0][k - 1];
        }
      }
    }
  }

  /** Each line followed by `'\n'`, the way the ledger file is written. */
  function JoinLines(lines: seq<string>): string
  {
    if |lines| == 0 then "" else lines[0] + "\n" + JoinLines(lines[1..])
  }

  /** Empty, or ending in `'\n'`: appending to such a file starts a new line. */
  predicate Terminated(s: string)
  {
    |s| == 0 || s[|s| - 1] == '\n'
  }

  /** Only `'\n'` is used as a line break. */
  predicate PlainBreaks(s: string)
  {
    forall i :: 0 <= i < |s| ==> IsLineBreak(s[i]) ==> s[i] == '\n'
  }

  lemma {:induction false} JoinLinesAppend(lines: seq<string>, x: string)
    ensures JoinLines(lines + [x]) == JoinLines(lines) + x + "\n"
    decreases |lines|
  {
    if |lines| > 0 {
      assert (lines + [x])[1..] == lines[1..] + [x];
      JoinLinesAppend(lines[1..], x);
    }
  }

  lemma {:induction false} JoinLinesConcat(xs: seq<string>, ys: seq<string>)
    ensures JoinLines(xs + ys) == JoinLines(xs) + JoinLines(ys)
    decreases |xs|
  {
    if |xs| > 0 {
      assert (xs + ys)[1..] == xs[1..] + ys;
      JoinLinesConcat(xs[1..], ys);
    } else {
      assert xs + ys == ys;
    }
  }

  /** The text written from a list of lines is terminated and uses only
      `'\n'` breaks when the lines have none of their own. */
  lemma {:induction false} JoinLinesShape(lines: seq<string>)
    requires forall i :: 0 <= i < |lines| ==> NoBreaks(lines[i])
    ensures Terminated(JoinLines(lines)) && PlainBreaks(JoinLines(lines))
    decreases |lines|
  {
    if |lines| > 0 {
      JoinLinesShape(lines[1..]);
      var s := JoinLines(lines);
      var tail := JoinLines(lines[1..]);
      assert s == lines[0] + "\n" + tail;
      forall i | 0 <= i < |s| && IsLineBreak(s[i]) ensures s[i] == '\n' {
        if i > |lines[0]| { assert s[i] == tail[i - |lines[0]| - 1]; }
      }
    }
  }

  /** A line without breaks followed by `'\n'` is the first line read back. */
  lemma {:induction false} SplitLinesLine(l: string, rest: string)
    requires NoBreaks(l)
    ensures SplitLines(l + "\n" + rest) == [l] + SplitLines(rest)
    decreases |l|
  {
    var s := l + "\n" + rest;
    if |l| == 0 {
      assert s == "\n" + rest;
      assert s[BreakWidth(s)..] == rest;
    } else {
      assert s[1..] == l[1..] + "\n" + rest;
      SplitLinesLine(l[1..], rest);
      assert [l[0]] + l[1..] == l;
    }
  }

  /** Writing lines and reading them back with `splitlines()` is the identity
      for lines that have no break characters of their own. */
  lemma {:induction false} SplitLinesJoin(lines: seq<string>)
    requires forall i :: 0 <= i < |lines| ==> NoBreaks(lines[i])
    ensures SplitLines(JoinLines(lines)) == lines
    decreases |lines|
  {
    if |lines| > 0 {
      SplitLinesJoin(lines[1..]);
      SplitLinesLine(lines[0], JoinLines(lines[1..]));
      assert [lines[0]] + lines[1..] == lines;
    }
  }

  /** Reading the lines of a terminated text that uses only `'\n'` and
      writing them again gives back the same text. */
  lemma {:induction false} JoinSplitLines(s: string)
    requires Terminated(s) && PlainBreaks(s)
    ensures JoinLines(SplitLines(s)) == s
    decreases |s|
  {
    if |s| > 0 {
      var t := s[1..];
      assert Terminated(t) && PlainBreaks(t) by {
        if |t| > 0 { assert t[|t| - 1] == s[|s| - 1]; }
        forall i | 0 <= i < |t| && IsLineBreak(t[i]) ensures t[i] == '\n' { assert t[i] == s[i + 1]; }
      }
      JoinSplitLines(t);
      if IsLineBreak(s[0]) {
        assert s[0] == '\n' && BreakWidth(s) == 1;
        assert s == "\n" + t;
      } else {
        var rest := SplitLines(t);
        assert |t| > 0;
        assert JoinLines(rest) == rest[0] + "\n" + JoinLines(rest[1..]);
        assert s == [s[0]] + t;
      }
    }
  }

  /** Text appended to a terminated text starts on a line of its own. */
  lemma {:induction false} SplitLinesAppend(t: string, u: string)
    requires Terminated(t)
    ensures SplitLines(t + u) == SplitLines(t) + SplitLines(u)
    decreases |t|
  {
    var s := t + u;
    if |t| == 0 {
      assert s == u;
    } else if IsLineBreak(t[0]) {
      var w := BreakWidth(t);
      assert BreakWidth(s) == w by {
        if |t| == 1 { assert t[0] == '\n'; }
      }
      assert Terminated(t[w..]) by {
        if |t[w..]| > 0 { assert t[w..][|t[w..]| - 1] == t[|t| - 1]; }
      }
      assert s[w..] == t[w..] + u;
      SplitLinesAppend(t[w..], u);
    } else {
      assert |t| > 1;
      assert Terminated(t[1..]) by { assert t[1..][|t[1..]| - 1] == t[|t| - 1]; }
      assert s[1..] == t[1..] + u;
      SplitLinesAppend(t[1..], u);
      assert |SplitLines(t[1..])| > 0;
    }
  }

  // ---------------------------------------------------------------------------
  // str(n) for a non-negative int
  // ---------------------------------------------------------------------------

  predicate IsDigit(c: char)
  {
    '0' <= c <= '9'
  }

  function DigitChar(d: nat): char
    requires d < 10
  {
    ['0', '1', '2', '3', '4', '5', '6', '7', '8', '9'][d]
  }

  /** `str(n)`: the decimal numeral of `n`, non-empty and made of digits only. */
  function NatToString(n: nat): (s: string)
    ensures |s| >= 1
    ensures forall i :: 0 <= i < |s| ==> IsDigit(s[i])
    decreases n
  {
    if n < 10 then [DigitChar(n)] else NatToString(n / 10) + [DigitChar(n % 10)]
  }

  /** The value of a numeral, the inverse of `NatToString`. */
  function DecimalValue(s: string): nat
    requires forall i :: 0 <= i < |s| ==> IsDigit(s[i])
  {
    if |s| == 0 then 0
    else
      var last := s[|s| - 1];
      assert IsDigit(last);
      10 * DecimalValue(s[..|s| - 1]) + (last as int - '0' as int)
  }

  lemma DigitValue(d: nat)
    requires d < 10
    ensures DigitChar(d) as int - '0' as int == d
  {
  }

  /** `str` is injective on ports: reading a numeral back gives its number. */
  lemma {:induction false} DecimalValueOfNat(n: nat)
    ensures DecimalValue(NatToString(n)) == n
    decreases n
  {
    var s := NatToString(n);
    if n < 10 {
      DigitValue(n);
    } else {
      DecimalValueOfNat(n / 10);
      DigitValue(n % 10);
      assert s[..|s| - 1] == NatToString(n / 10);
    }
  }
}
