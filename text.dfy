/** Python string primitives the pipeline relies on, stated over `seq<char>`:
    counting occurrences of a token, `re.sub` with a literal pattern and a
    replacement free of escapes, `"\n".join`, and the decimal rendering of a
    list index inside an f-string. */
module Text {

  /** `t` occurs in `s` starting at index `i`. */
  predicate OccursAt(s: string, t: string, i: nat)
  {
    i + |t| <= |s| && s[i..i + |t|] == t
  }

  /** Number of (possibly overlapping) positions at which `t` occurs in `s`. */
  function Count(s: string, t: string): nat
    requires |t| > 0
    decreases |s|
  {
    if |s| < |t| then 0
    else (if s[..|t|] == t then 1 else 0) + Count(s[1..], t)
  }

  /** `s` contains `t` as a substring. */
  predicate Contains(s: string, t: string)
    requires |t| > 0
  {
    Count(s, t) > 0
  }

  /** The model of `re.sub(pat, rep, s)` for a pattern without regex
      metacharacters and a replacement without backslashes: every
      occurrence of `pat`, found left to right without overlap, is replaced
      by `rep`, and the scan resumes after the match (the inserted text is
      not rescanned). Text holding no occurrence comes through unchanged,
      and the pattern alone becomes exactly the replacement. */
  function ReplaceAll(s: string, pat: string, rep: string): (r: string)
    requires |pat| > 0
    ensures Count(s, pat) == 0 ==> r == s
    ensures s == pat ==> r == rep
    decreases |s|
  {
    if |s| < |pat| then s
    else if s[..|pat|] == pat then
      assert s == pat ==> s[|pat|..] == [];
      rep + ReplaceAll(s[|pat|..], pat, rep)
    else
      assert s == [s[0]] + s[1..];
      [s[0]] + ReplaceAll(s[1..], pat, rep)
  }

  /** A newline stands at the seam between `a` and `b`, so no token free of
      newlines can straddle it. */
  predicate Separated(a: string, b: string)
  {
    a == [] || b == [] || a[|a| - 1] == '\n' || b[0] == '\n'
  }

  /** An occurrence of `t` that starts in `a` and runs into `b` covers the
      newline at a separated seam. */
  lemma StraddleHasNewline(a: string, b: string, t: string)
    requires Separated(a, b)
    requires 0 < |a| < |t| <= |a + b| && (a + b)[..|t|] == t
    ensures '\n' in t
  {
    if b[0] == '\n' {
      assert t[|a|] == (a + b)[|a|];
    } else {
      assert t[|a| - 1] == (a + b)[|a| - 1];
    }
  }

  /** An occurrence of `t` at the front of `a + b` lies inside `a` when the
      seam is separated by a newline that `t` does not contain. */
  lemma PrefixInside(a: string, b: string, t: string)
    requires |t| > 0 && '\n' !in t && Separated(a, b)
    requires |a| > 0 && |a + b| >= |t| && (a + b)[..|t|] == t
    ensures |a| >= |t| && a[..|t|] == t
  {
    if |a| < |t| {
      StraddleHasNewline(a, b, t);
      assert false;
    }
    assert a[..|t|] == (a + b)[..|t|];
  }

  lemma SeparatedSuffix(a: string, b: string, k: nat)
    requires Separated(a, b) && k <= |a|
    ensures Separated(a[k..], b)
  {
    if k < |a| {
      assert a[k..][|a[k..]| - 1] == a[|a| - 1];
    }
  }

  /** Counting is additive across a newline seam. */
  lemma {:induction false} CountConcat(a: string, b: string, t: string)
    requires |t| > 0 && '\n' !in t && Separated(a, b)
    ensures Count(a + b, t) == Count(a, t) + Count(b, t)
    decreases |a|
  {
    if a == [] {
      assert a + b == b;
    } else if |a + b| < |t| {
    } else {
      assert (a + b)[1..] == a[1..] + b;
      SeparatedSuffix(a, b, 1);
      CountConcat(a[1..], b, t);
      if (a + b)[..|t|] == t {
        PrefixInside(a, b, t);
      } else if |a| >= |t| {
        assert a[..|t|] == (a + b)[..|t|];
      }
    }
  }

  /** Replacement works piecewise across a newline seam. */
  lemma {:induction false} ReplaceAllConcat(a: string, b: string, t: string, r: string)
    requires |t| > 0 && '\n' !in t && Separated(a, b)
    ensures ReplaceAll(a + b, t, r) == ReplaceAll(a, t, r) + ReplaceAll(b, t, r)
    decreases |a|, 1
  {
    if a == [] {
      assert a + b == b;
    } else if |a + b| < |t| {
      assert ReplaceAll(b, t, r) == b;
    } else if (a + b)[..|t|] == t {
      ReplaceAllConcatMatch(a, b, t, r);
    } else {
      ReplaceAllConcatSkip(a, b, t, r);
    }
  }

  /** The seam case of `ReplaceAllConcat` where the pattern starts the text. */
  lemma {:induction false} ReplaceAllConcatMatch(a: string, b: string, t: string, r: string)
    requires |t| > 0 && '\n' !in t && Separated(a, b)
    requires a != [] && |a + b| >= |t| && (a + b)[..|t|] == t
    ensures ReplaceAll(a + b, t, r) == ReplaceAll(a, t, r) + ReplaceAll(b, t, r)
    decreases |a|, 0
  {
    PrefixInside(a, b, t);
    var rest := a[|t|..];
    assert (a + b)[|t|..] == rest + b;
    SeparatedSuffix(a, b, |t|);
    ReplaceAllConcat(rest, b, t, r);
    calc {
      ReplaceAll(a + b, t, r);
      r + ReplaceAll(rest + b, t, r);
      r + (ReplaceAll(rest, t, r) + ReplaceAll(b, t, r));
      (r + ReplaceAll(rest, t, r)) + ReplaceAll(b, t, r);
      ReplaceAll(a, t, r) + ReplaceAll(b, t, r);
    }
  }

  /** The seam case of `ReplaceAllConcat` where the first character is kept. */
  lemma {:induction false} ReplaceAllConcatSkip(a: string, b: string, t: string, r: string)
    requires |t| > 0 && '\n' !in t && Separated(a, b)
    requires a != [] && |a + b| >= |t| && (a + b)[..|t|] != t
    ensures ReplaceAll(a + b, t, r) == ReplaceAll(a, t, r) + ReplaceAll(b, t, r)
    decreases |a|, 0
  {
    var rest := a[1..];
    assert (a + b)[1..] == rest + b;
    SeparatedSuffix(a, b, 1);
    ReplaceAllConcat(rest, b, t, r);
    if |a| >= |t| {
      assert a[..|t|] == (a + b)[..|t|];
    } else {
      assert ReplaceAll(rest, t, r) == rest;
    }
    calc {
      ReplaceAll(a + b, t, r);
      [a[0]] + ReplaceAll(rest + b, t, r);
      [a[0]] + (ReplaceAll(rest, t, r) + ReplaceAll(b, t, r));
      ([a[0]] + ReplaceAll(rest, t, r)) + ReplaceAll(b, t, r);
      ReplaceAll(a, t, r) + ReplaceAll(b, t, r);
    }
  }

  /** A text without the pattern's first character never contains it. */
  lemma {:induction false} CountWithoutFirstChar(s: string, t: string)
    requires |t| > 0 && t[0] !in s
    ensures Count(s, t) == 0
    decreases |s|
  {
    if |s| >= |t| {
      assert s[..|t|][0] == s[0];
      CountWithoutFirstChar(s[1..], t);
    }
  }

  /** An occurrence at `j` is counted. */
  lemma {:induction false} CountAtLeastOne(s: string, t: string, j: nat)
    requires |t| > 0 && OccursAt(s, t, j)
    ensures Count(s, t) >= 1
    decreases j
  {
    if j > 0 {
      assert s[1..][j - 1..j - 1 + |t|] == s[j..j + |t|];
      CountAtLeastOne(s[1..], t, j - 1);
    }
  }

  /** Two occurrences at different positions are both counted, so a count
      of one pins the occurrence down. */
  lemma {:induction false} CountAtLeastTwo(s: string, t: string, i: nat, j: nat)
    requires |t| > 0 && i < j && OccursAt(s, t, i) && OccursAt(s, t, j)
    ensures Count(s, t) >= 2
    decreases i
  {
    assert s[1..][j - 1..j - 1 + |t|] == s[j..j + |t|];
    if i == 0 {
      CountAtLeastOne(s[1..], t, j - 1);
    } else {
      assert s[1..][i - 1..i - 1 + |t|] == s[i..i + |t|];
      CountAtLeastTwo(s[1..], t, i - 1, j - 1);
    }
  }

  /** When `t` is counted once in `s`, its occurrence at `k` is the only one. */
  lemma OnlyOccurrence(s: string, t: string, k: nat)
    requires |t| > 0 && Count(s, t) == 1 && OccursAt(s, t, k)
    ensures forall i: nat :: OccursAt(s, t, i) <==> i == k
  {
    forall i: nat | OccursAt(s, t, i) ensures i == k {
      if i < k {
        CountAtLeastTwo(s, t, i, k);
      } else if i > k {
        CountAtLeastTwo(s, t, k, i);
      }
    }
  }

  /** A pattern occurs in itself exactly once. */
  lemma CountSelf(t: string)
    requires |t| > 0
    ensures Count(t, t) == 1
  {
    assert t[..|t|] == t;
    CountShorter(t[1..], t);
  }

  /** A text shorter than the pattern never contains it. */
  lemma CountShorter(s: string, t: string)
    requires |t| > 0 && |s| < |t|
    ensures Count(s, t) == 0
  {
  }

  /** Python's `sep.join(parts)`. */
  function Join(parts: seq<string>, sep: string): string
  {
    if |parts| == 0 then ""
    else if |parts| == 1 then parts[0]
    else parts[0] + sep + Join(parts[1..], sep)
  }

  /** Splits `s` at every occurrence of the character `sep`, as Python's
      `s.split(sep)` does for a one-character separator. */
  function Split(s: string, sep: char): (parts: seq<string>)
    ensures |parts| >= 1
    decreases |s|
  {
    if |s| == 0 then [""]
    else if s[0] == sep then [""] + Split(s[1..], sep)
    else
      var rest := Split(s[1..], sep);
      [[s[0]] + rest[0]] + rest[1..]
  }

  /** Splitting a piece free of the separator followed by the separator and
      more text gives the piece first, then the split of the rest. */
  lemma {:induction false} SplitAfterPiece(p: string, sep: char, rest: string)
    requires sep !in p
    ensures Split(p + [sep] + rest, sep) == [p] + Split(rest, sep)
    decreases |p|
  {
    if p == [] {
      assert p + [sep] + rest == [sep] + rest;
      assert ([sep] + rest)[1..] == rest;
    } else {
      assert (p + [sep] + rest)[1..] == p[1..] + [sep] + rest;
      SplitAfterPiece(p[1..], sep, rest);
      assert [p[0]] + p[1..] == p;
    }
  }

  /** A piece free of the separator splits into itself. */
  lemma {:induction false} SplitPiece(p: string, sep: char)
    requires sep !in p
    ensures Split(p, sep) == [p]
    decreases |p|
  {
    if p != [] {
      SplitPiece(p[1..], sep);
      assert [p[0]] + p[1..] == p;
    }
  }

  /** Joining with a one-character separator and splitting at it round-trips
      whenever no part contains the separator. */
  lemma {:induction false} SplitJoin(parts: seq<string>, sep: char)
    requires |parts| >= 1
    requires forall i :: 0 <= i < |parts| ==> sep !in parts[i]
    ensures Split(Join(parts, [sep]), sep) == parts
    decreases |parts|
  {
    if |parts| == 1 {
      SplitPiece(parts[0], sep);
    } else {
      SplitJoin(parts[1..], sep);
      SplitAfterPiece(parts[0], sep, Join(parts[1..], [sep]));
      assert [parts[0]] + parts[1..] == parts;
    }
  }

  /** The decimal digit for `d`. */
  function Digit(d: nat): char
    requires d < 10
  {
    "0123456789"[d]
  }

  /** `str(n)` for a non-negative integer, as an f-string renders it. */
  function NatToDecimal(n: nat): (s: string)
    ensures |s| >= 1
    ensures forall i :: 0 <= i < |s| ==> '0' <= s[i] <= '9'
    decreases n
  {
    if n < 10 then [Digit(n)] else NatToDecimal(n / 10) + [Digit(n % 10)]
  }

  /** Reads a string of decimal digits back as a number. */
  function DecimalValue(s: string): nat
    requires forall i :: 0 <= i < |s| ==> '0' <= s[i] <= '9'
    decreases |s|
  {
    if s == [] then 0
    else 10 * DecimalValue(s[..|s| - 1]) + (s[|s| - 1] - '0') as nat
  }

  /** The rendering of an index reads back as that index, so distinct
      indices render differently. */
  lemma {:induction false} DecimalRoundTrip(n: nat)
    ensures DecimalValue(NatToDecimal(n)) == n
    decreases n
  {
    var s := NatToDecimal(n);
    if n < 10 {
      assert s[..|s| - 1] == [];
    } else {
      DecimalRoundTrip(n / 10);
      assert s[..|s| - 1] == NatToDecimal(n / 10);
    }
  }
}
