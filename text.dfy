/**
 * Python string primitives that the tools rely on, stated over `string`
 * (`seq<char>`): `str.isspace`, `str.strip`, `str.splitlines`,
 * `str.split(sep)`, `str.split(maxsplit=1)`, `int(text)`, `str(int)`,
 * ASCII case folding and slicing `xs[:n]`.
 */
module Text {

  datatype Option<T> = None | Some(value: T)

  /** The characters Python's `str.isspace` accepts (and that `strip()` and `split()` remove). */
  predicate IsSpace(c: char)
  {
    || ('\t' <= c <= '\r')
    || ('\U{1C}' <= c <= '\U{1F}')
    || c == ' ' || c == '\U{85}' || c == '\U{A0}' || c == '\U{1680}'
    || ('\U{2000}' <= c <= '\U{200A}')
    || c == '\U{2028}' || c == '\U{2029}' || c == '\U{202F}' || c == '\U{205F}' || c == '\U{3000}'
  }

  /** The line boundaries of Python's `str.splitlines` (`\r\n` counts as one boundary). */
  predicate IsLineBreak(c: char)
  {
    || c == '\n' || c == '\r' || c == '\U{0B}' || c == '\U{0C}'
    || c == '\U{1C}' || c == '\U{1D}' || c == '\U{1E}' || c == '\U{85}'
    || c == '\U{2028}' || c == '\U{2029}'
  }

  predicate IsDigit(c: char) { '0' <= c <= '9' }

  predicate IsBlank(s: string) { forall k :: 0 <= k < |s| ==> IsSpace(s[k]) }

  predicate NoLineBreak(s: string) { forall k :: 0 <= k < |s| ==> !IsLineBreak(s[k]) }

  predicate StartsWith(s: string, prefix: string) { prefix <= s }

  // ---------------------------------------------------------------------------
  // strip()

  /** `s.lstrip()`: the longest suffix of `s` that does not start with whitespace. */
  function TrimStart(s: string): (r: string)
    ensures |r| <= |s| && r == s[|s| - |r|..]
    ensures forall k :: 0 <= k < |s| - |r| ==> IsSpace(s[k])
    ensures r != [] ==> !IsSpace(r[0])
  {
    if s != [] && IsSpace(s[0]) then TrimStart(s[1..]) else s
  }

  /** `s.rstrip()`: the longest prefix of `s` that does not end with whitespace. */
  function TrimEnd(s: string): (r: string)
    ensures |r| <= |s| && r == s[..|r|]
    ensures forall k :: |r| <= k < |s| ==> IsSpace(s[k])
    ensures r != [] ==> !IsSpace(r[|r| - 1])
  {
    if s != [] && IsSpace(s[|s| - 1]) then TrimEnd(s[..|s| - 1]) else s
  }

  /** `s.strip()` */
  function Strip(s: string): string
  {
    TrimEnd(TrimStart(s))
  }

  /** `not s.strip()` holds exactly for the strings made only of whitespace. */
  lemma StripEmptyIffBlank(s: string)
    ensures Strip(s) == [] <==> IsBlank(s)
  {
    StripStartEmptyIffBlank(s);
  }

  /** Stripping a stripped string changes nothing. */
  lemma StripIdempotent(s: string)
    ensures Strip(Strip(s)) == Strip(s)
  {
    var r := Strip(s);
    assert r != [] ==> !IsSpace(r[0]);
    if r != [] {
      assert r == TrimEnd(TrimStart(s)) && r[0] == TrimStart(s)[0];
    }
    assert TrimStart(r) == r;
  }

  // ---------------------------------------------------------------------------
  // splitlines()

  /** Index of the first line boundary in `s`, or `|s|` when there is none. */
  function FirstBreak(s: string): (i: nat)
    ensures i <= |s|
    ensures forall k :: 0 <= k < i ==> !IsLineBreak(s[k])
    ensures i < |s| ==> IsLineBreak(s[i])
  {
    if s == [] || IsLineBreak(s[0]) then 0 else 1 + FirstBreak(s[1..])
  }

  /** Width of the boundary at `s[i]`: two for `\r\n`, one otherwise. */
  function BreakWidth(s: string, i: nat): (w: nat)
    requires i < |s|
    ensures 1 <= w && i + w <= |s|
  {
    if s[i] == '\r' && i + 1 < |s| && s[i + 1] == '\n' then 2 else 1
  }

  /** `s.splitlines()`: the lines of `s` without their terminators; no empty line after a final terminator. */
  function SplitLines(s: string): (lines: seq<string>)
    ensures forall j :: 0 <= j < |lines| ==> NoLineBreak(lines[j])
    ensures s == [] <==> lines == []
    decreases |s|
  {
    if s == [] then []
    else
      var i := FirstBreak(s);
      if i == |s| then [s]
      else [s[..i]] + SplitLines(s[i + BreakWidth(s, i)..])
  }

  /** Every terminator (`\r\n` as a whole) replaced by `\n`. */
  function UniversalNewlines(s: string): string
    decreases |s|
  {
    if s == [] then []
    else if s[0] == '\r' && 1 < |s| && s[1] == '\n' then "\n" + UniversalNewlines(s[2..])
    else if IsLineBreak(s[0]) then "\n" + UniversalNewlines(s[1..])
    else [s[0]] + UniversalNewlines(s[1..])
  }

  /** Each line followed by `\n`. */
  function Terminated(lines: seq<string>): string
  {
    if lines == [] then [] else lines[0] + "\n" + Terminated(lines[1..])
  }

  lemma {:induction false} UniversalNewlinesSkipsPlain(a: string, b: string)
    requires NoLineBreak(a)
    ensures UniversalNewlines(a + b) == a + UniversalNewlines(b)
    decreases |a|
  {
    if a != [] {
      assert (a + b)[0] == a[0] && (a + b)[1..] == a[1..] + b;
      assert !IsLineBreak(a[0]);
      assert UniversalNewlines(a + b) == [a[0]] + UniversalNewlines(a[1..] + b);
      UniversalNewlinesSkipsPlain(a[1..], b);
      assert [a[0]] + (a[1..] + UniversalNewlines(b)) == a + UniversalNewlines(b);
    } else {
      assert a + b == b;
    }
  }

  /**
   * Round trip of `splitlines`: writing every line back with a `\n` after it
   * gives the input with its terminators normalised, plus a final `\n` when
   * the input did not end with one.
   */
  lemma {:induction false} SplitLinesRoundTrip(s: string)
    ensures Terminated(SplitLines(s)) == UniversalNewlines(s) + FinalNewline(s)
    decreases |s|
  {
    if s != [] {
      var i := FirstBreak(s);
      if i == |s| {
        UniversalNewlinesSkipsPlain(s, []);
        assert s + [] == s;
        assert Terminated([s]) == s + "\n" + Terminated([]);
      } else {
        var rest := s[i + BreakWidth(s, i)..];
        SplitLinesRoundTrip(rest);
        SplitLinesStep(s, i, rest);
      }
    }
  }

  lemma SplitLinesStep(s: string, i: nat, rest: string)
    requires s != [] && i == FirstBreak(s) && i < |s| && rest == s[i + BreakWidth(s, i)..]
    requires Terminated(SplitLines(rest)) == UniversalNewlines(rest) + FinalNewline(rest)
    ensures Terminated(SplitLines(s)) == UniversalNewlines(s) + FinalNewline(s)
  {
    TerminatedStep(s, i, rest);
    NormalisedStep(s, i, rest);
    FinalNewlineStep(s, i, rest);
    Regroup(s[..i], "\n", UniversalNewlines(rest), FinalNewline(rest));
  }

  lemma TerminatedStep(s: string, i: nat, rest: string)
    requires s != [] && i == FirstBreak(s) && i < |s| && rest == s[i + BreakWidth(s, i)..]
    ensures Terminated(SplitLines(s)) == s[..i] + "\n" + Terminated(SplitLines(rest))
  {
    var lines := SplitLines(rest);
    assert SplitLines(s) == [s[..i]] + lines;
    assert ([s[..i]] + lines)[1..] == lines;
  }

  lemma NormalisedStep(s: string, i: nat, rest: string)
    requires i < |s| && NoLineBreak(s[..i]) && IsLineBreak(s[i]) && rest == s[i + BreakWidth(s, i)..]
    ensures UniversalNewlines(s) == s[..i] + ("\n" + UniversalNewlines(rest))
  {
    BreakNormalised(s, i);
    assert s == s[..i] + s[i..];
    UniversalNewlinesSkipsPlain(s[..i], s[i..]);
  }

  lemma FinalNewlineStep(s: string, i: nat, rest: string)
    requires i < |s| && IsLineBreak(s[i]) && rest == s[i + BreakWidth(s, i)..]
    ensures FinalNewline(s) == FinalNewline(rest)
  {
    BreakNormalised(s, i);
    if rest != [] {
      assert s[|s| - 1] == rest[|rest| - 1];
    }
  }

  /** Splitting lines that were each written out with a `\n` gives them back. */
  lemma {:induction false} SplitTerminated(lines: seq<string>)
    requires forall j :: 0 <= j < |lines| ==> NoLineBreak(lines[j])
    ensures SplitLines(Terminated(lines)) == lines
  {
    if lines != [] {
      var l, rest := lines[0], Terminated(lines[1..]);
      var s := Terminated(lines);
      assert s == l + "\n" + rest;
      assert s[|l|] == '\n';
      assert forall k :: 0 <= k < |l| ==> s[k] == l[k];
      var i := FirstBreak(s);
      assert i == |l|;
      assert s[..i] == l && s[i + 1..] == rest;
      SplitTerminated(lines[1..]);
      assert lines == [l] + lines[1..];
    }
  }

  lemma Associate<T>(a: seq<T>, b: seq<T>, c: seq<T>)
    ensures a + b + c == a + (b + c)
  {
  }

  lemma Regroup<T>(a: seq<T>, b: seq<T>, c: seq<T>, d: seq<T>)
    ensures a + b + (c + d) == a + (b + c) + d
  {
  }

  /** The `\n` that `Terminated` adds after a last line that had no terminator. */
  function FinalNewline(s: string): string
  {
    if s != [] && !IsLineBreak(s[|s| - 1]) then "\n" else ""
  }

  /** The boundary at `s[i]` normalises to a single `\n`; nothing of it is left over. */
  lemma BreakNormalised(s: string, i: nat)
    requires i < |s| && IsLineBreak(s[i])
    ensures UniversalNewlines(s[i..]) == "\n" + UniversalNewlines(s[i + BreakWidth(s, i)..])
    ensures s[i + BreakWidth(s, i)..] == [] ==> FinalNewline(s) == ""
  {
    var t := s[i..];
    if BreakWidth(s, i) == 2 {
      assert t[2..] == s[i + 2..];
    } else {
      assert t[1..] == s[i + 1..];
    }
  }

  // ---------------------------------------------------------------------------
  // split(sep) and '<sep>'.join(...)

  /** `s.split(sep)` for a one-character separator. */
  function Split(s: string, sep: char): (fields: seq<string>)
    ensures |fields| >= 1
    ensures forall j :: 0 <= j < |fields| ==> sep !in fields[j]
  {
    if s == [] then [""]
    else
      var rest := Split(s[1..], sep);
      if s[0] == sep then [""] + rest else [[s[0]] + rest[0]] + rest[1..]
  }

  /** `sep.join(fields)` */
  function JoinWith(fields: seq<string>, sep: char): string
  {
    if fields == [] then []
    else if |fields| == 1 then fields[0]
    else fields[0] + [sep] + JoinWith(fields[1..], sep)
  }

  /** Joining the fields of a split with the same separator gives back the input. */
  lemma {:induction false} SplitJoinRoundTrip(s: string, sep: char)
    ensures JoinWith(Split(s, sep), sep) == s
  {
    if s != [] {
      var rest := Split(s[1..], sep);
      SplitJoinRoundTrip(s[1..], sep);
      if s[0] != sep {
        var fs := Split(s, sep);
        if |rest| == 1 {
          assert fs == [[s[0]] + rest[0]];
        } else {
          assert fs[1..] == rest[1..];
          assert JoinWith(rest, sep) == rest[0] + [sep] + JoinWith(rest[1..], sep);
        }
      }
    }
  }

  /** Splitting a join of separator-free fields gives back the fields. */
  lemma {:induction false} JoinSplitRoundTrip(fields: seq<string>, sep: char)
    requires |fields| >= 1
    requires forall j :: 0 <= j < |fields| ==> sep !in fields[j]
    ensures Split(JoinWith(fields, sep), sep) == fields
    decreases fields, 1
  {
    if |fields| == 1 {
      var f := fields[0];
      SplitPlain(f, [], sep);
      assert JoinWith(fields, sep) == f;
      assert f + [] == f;
      assert Split([], sep) == [""];
      assert f + "" == f;
      assert fields == [f];
    } else {
      JoinSplitRoundTrip(fields[1..], sep);
      var tail := JoinWith(fields[1..], sep);
      assert ([sep] + tail)[1..] == tail;
      assert Split([sep] + tail, sep) == [""] + fields[1..];
      var r := [""] + fields[1..];
      assert r[0] == "" && r[1..] == fields[1..];
      SplitPlain(fields[0], [sep] + tail, sep);
      assert fields[0] + r[0] == fields[0];
      assert JoinWith(fields, sep) == fields[0] + ([sep] + tail);
      assert fields == [fields[0]] + fields[1..];
    }
  }

  /** Every character of a join is the separator or a character of one of the fields. */
  /** Joining two non-empty field lists one after the other puts one separator between them. */
  lemma {:induction false} JoinWithAppend(a: seq<string>, b: seq<string>, sep: char)
    requires a != [] && b != []
    ensures JoinWith(a + b, sep) == JoinWith(a, sep) + [sep] + JoinWith(b, sep)
    decreases |a|
  {
    var ab := a + b;
    assert ab[0] == a[0];
    if |a| == 1 {
      assert ab[1..] == b;
    } else {
      assert ab[1..] == a[1..] + b;
      JoinWithAppend(a[1..], b, sep);
      calc {
        JoinWith(ab, sep);
        a[0] + [sep] + JoinWith(a[1..] + b, sep);
        a[0] + [sep] + (JoinWith(a[1..], sep) + [sep] + JoinWith(b, sep));
        { Associate(a[0] + [sep], JoinWith(a[1..], sep), [sep] + JoinWith(b, sep)); }
        a[0] + [sep] + JoinWith(a[1..], sep) + [sep] + JoinWith(b, sep);
      }
    }
  }

  lemma {:induction false} JoinWithChars(fields: seq<string>, sep: char, p: char -> bool)
    requires p(sep)
    requires forall j :: 0 <= j < |fields| ==> forall k :: 0 <= k < |fields[j]| ==> p(fields[j][k])
    ensures forall k :: 0 <= k < |JoinWith(fields, sep)| ==> p(JoinWith(fields, sep)[k])
  {
    if |fields| > 1 {
      JoinWithChars(fields[1..], sep, p);
      var head, tail := fields[0] + [sep], JoinWith(fields[1..], sep);
      assert JoinWith(fields, sep) == head + tail;
      assert forall k :: 0 <= k < |head| ==> p(head[k]);
    }
  }

  /** Every character of every field occurs in the join. */
  lemma {:induction false} FieldCharsInJoin(fields: seq<string>, sep: char, j: nat)
    requires j < |fields|
    ensures forall c :: c in fields[j] ==> c in JoinWith(fields, sep)
  {
    if |fields| > 1 {
      var tail := JoinWith(fields[1..], sep);
      assert JoinWith(fields, sep) == fields[0] + [sep] + tail;
      if j > 0 {
        FieldCharsInJoin(fields[1..], sep, j - 1);
        assert fields[1..][j - 1] == fields[j];
      }
    }
  }

  /** A separator-free prefix ends up at the front of the first field. */
  lemma {:induction false} SplitPlain(a: string, b: string, sep: char)
    requires sep !in a
    ensures var r := Split(b, sep); Split(a + b, sep) == [a + r[0]] + r[1..]
    decreases |a|
  {
    if a != [] {
      assert (a + b)[0] == a[0] && (a + b)[1..] == a[1..] + b;
      SplitPlain(a[1..], b, sep);
      assert [a[0]] + (a[1..] + Split(b, sep)[0]) == a + Split(b, sep)[0];
    } else {
      var r := Split(b, sep);
      assert a + b == b && a + r[0] == r[0] && r == [r[0]] + r[1..];
    }
  }

  // ---------------------------------------------------------------------------
  // split(maxsplit=1)

  /** Index of the first whitespace character in `s`, or `|s|`. */
  function FirstSpace(s: string): (i: nat)
    ensures i <= |s|
    ensures forall k :: 0 <= k < i ==> !IsSpace(s[k])
    ensures i < |s| ==> IsSpace(s[i])
  {
    if s == [] || IsSpace(s[0]) then 0 else 1 + FirstSpace(s[1..])
  }

  /**
   * `s.split(maxsplit=1)`: no part at all for a blank string, else the first
   * whitespace-delimited word and, when anything but whitespace follows it,
   * the remainder with its leading whitespace removed.
   */
  function SplitOnce(s: string): (parts: seq<string>)
    ensures |parts| <= 2
    ensures parts == [] <==> IsBlank(s)
  {
    StripStartEmptyIffBlank(s);
    var t := TrimStart(s);
    if t == [] then []
    else
      var k := FirstSpace(t);
      var rest := TrimStart(t[k..]);
      if rest == [] then [t[..k]] else [t[..k], rest]
  }

  /** `t` is `word`, then whitespace (some, when `rest` is not empty), then `rest`. */
  predicate WordGapRest(t: string, word: string, rest: string)
  {
    && |word| + |rest| <= |t|
    && t[..|word|] == word
    && t[|t| - |rest|..] == rest
    && IsBlank(t[|word|..|t| - |rest|])
    && (rest != [] ==> |word| + |rest| < |t|)
  }

  /** `parts` rebuilds `s` without its leading whitespace: the first part, whitespace, then the second part if any. */
  predicate FirstWordAndRest(s: string, parts: seq<string>)
  {
    && 1 <= |parts| <= 2
    && WordGapRest(TrimStart(s), parts[0], if |parts| == 2 then parts[1] else [])
  }

  /**
   * The first part is a whole word, the second, when there is one, starts with
   * no whitespace, and together with the whitespace between them they rebuild
   * the text after its leading whitespace.
   */
  lemma SplitOnceParts(s: string)
    ensures var parts := SplitOnce(s);
            && (|parts| >= 1 ==> parts[0] != [] && forall k :: 0 <= k < |parts[0]| ==> !IsSpace(parts[0][k]))
            && (|parts| == 2 ==> parts[1] != [] && !IsSpace(parts[1][0]))
            && (|parts| >= 1 ==> FirstWordAndRest(s, parts))
  {
    var t := TrimStart(s);
    if t != [] {
      var k := FirstSpace(t);
      assert k > 0;
      var word := t[..k];
      forall i | 0 <= i < |word| ensures !IsSpace(word[i]) { assert word[i] == t[i]; }
      WordThenRest(t, k);
    }
  }

  /** Cutting `t` at `k` and trimming the tail leaves only whitespace between the word and the rest. */
  lemma WordThenRest(t: string, k: nat)
    requires k <= |t|
    requires k < |t| ==> IsSpace(t[k])
    ensures WordGapRest(t, t[..k], TrimStart(t[k..]))
  {
    var tail := t[k..];
    var rest := TrimStart(tail);
    var gap := t[k..|t| - |rest|];
    assert gap == tail[..|tail| - |rest|];
    forall i | 0 <= i < |gap| ensures IsSpace(gap[i]) { assert gap[i] == tail[i]; }
    assert t[|t| - |rest|..] == tail[|tail| - |rest|..];
  }

  lemma StripStartEmptyIffBlank(s: string)
    ensures TrimStart(s) == [] <==> IsBlank(s)
  {

  }

  // ---------------------------------------------------------------------------
  // int(text) and str(n)

  /** A base-10 literal body as `int()` takes it: digits, single `_` only between digits. */
  predicate ValidDigits(b: string)
  {
    && b != []
    && IsDigit(b[0]) && IsDigit(b[|b| - 1])
    && (forall k :: 0 <= k < |b| ==> IsDigit(b[k]) || b[k] == '_')
    && (forall k :: 0 <= k < |b| - 1 ==> b[k] == '_' ==> b[k + 1] != '_')
  }

  /** Value of the digits of `b`, underscores skipped. */
  function DigitsValue(b: string): nat
  {
    if b == [] then 0
    else if b[|b| - 1] == '_' then DigitsValue(b[..|b| - 1])
    else DigitsValue(b[..|b| - 1]) * 10 + DigitValue(b[|b| - 1])
  }

  function DigitValue(c: char): nat
  {
    if IsDigit(c) then (c as int - '0' as int) as nat else 0
  }

  /** Python's `int(text)` in base 10: surrounding whitespace, an optional sign, then a digit body. */
  function ParseInt(text: string): (r: Option<int>)
    ensures r.Some? ==> Strip(text) != []
  {
    var t := Strip(text);
    if t == [] then None
    else
      var negative := t[0] == '-';
      var body := if t[0] == '-' || t[0] == '+' then t[1..] else t;
      var magnitude: int := DigitsValue(body);
      if ValidDigits(body) then Some(if negative then -magnitude else magnitude)
      else None
  }

  function DigitChar(d: nat): (c: char)
    requires d < 10
    ensures IsDigit(c) && DigitValue(c) == d
  {
    ('0' as int + d) as char
  }

  /** `str(n)` for a natural number: its decimal digits, no leading zero. */
  function NatToDecimal(n: nat): (s: string)
    ensures s != [] && forall k :: 0 <= k < |s| ==> IsDigit(s[k])
  {
    if n < 10 then [DigitChar(n)] else NatToDecimal(n / 10) + [DigitChar(n % 10)]
  }

  /** `str(n)` */
  function IntToDecimal(n: int): string
  {
    if n < 0 then "-" + NatToDecimal(-n) else NatToDecimal(n)
  }

  lemma {:induction false} DigitsValueOfDecimal(n: nat)
    ensures DigitsValue(NatToDecimal(n)) == n
  {
    if n >= 10 {
      DigitsValueOfDecimal(n / 10);
      var s := NatToDecimal(n);
      assert s[..|s| - 1] == NatToDecimal(n / 10);
    }
  }

  /** `int(str(n)) == n` for every integer. */
  lemma DecimalRoundTrip(n: int)
    ensures ParseInt(IntToDecimal(n)) == Some(n)
  {
    var s := IntToDecimal(n);
    var digits := NatToDecimal(if n < 0 then -n else n);
    DigitsValueOfDecimal(if n < 0 then -n else n);
    DecimalUnstripped(n);
    if n < 0 {
      assert s[1..] == digits;
    }
    assert ValidDigits(digits);
  }

  /** `str(n)` has no surrounding whitespace, so `strip()` leaves it unchanged. */
  lemma DecimalUnstripped(n: int)
    ensures Strip(IntToDecimal(n)) == IntToDecimal(n)
  {
    var s := IntToDecimal(n);
    DigitsValueOfDecimal(if n < 0 then -n else n);
    assert !IsSpace(s[0]) && !IsSpace(s[|s| - 1]);
    assert TrimStart(s) == s;
  }

  // ---------------------------------------------------------------------------
  // lower() and slicing

  /** `lower()` on the ASCII range. */
  function AsciiLower(s: string): (r: string)
    ensures |r| == |s|
    ensures forall k :: 0 <= k < |s| ==> r[k] == (if 'A' <= s[k] <= 'Z' then (s[k] as int + 32) as char else s[k])
  {
    if s == [] then [] else [if 'A' <= s[0] <= 'Z' then (s[0] as int + 32) as char else s[0]] + AsciiLower(s[1..])
  }

  /** Python's `xs[:n]`: a negative `n` counts from the end. */
  function SliceTo<T>(xs: seq<T>, n: int): (r: seq<T>)
    ensures r <= xs
    ensures |r| == if n >= 0 then (if n < |xs| then n else |xs|)
                   else (if |xs| + n > 0 then |xs| + n else 0)
  {
    if n >= 0 then (if n < |xs| then xs[..n] else xs)
    else (if |xs| + n > 0 then xs[..|xs| + n] else [])
  }
}
