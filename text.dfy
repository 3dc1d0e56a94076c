/** The handful of Python string operations the analyser relies on, written
    out with their documented semantics: `str.split(sep)` for a one-character
    separator, `str.strip()`, `str.index`, slicing with non-negative bounds and
    the decimal rendering of a non-negative `int` in an f-string. */
module Text {
  import opened Wrappers

  /** The characters `str.strip()` removes: those for which `str.isspace()`
      holds (ASCII tab to carriage return, the four information separators,
      space, NEL, no-break space, the Unicode space separators, and the line
      and paragraph separators U+2028 and U+2029). */
  predicate IsSpace(c: char) {
    c == ' ' || ('\t' <= c <= '\r') || ('\U{1C}' <= c <= '\U{1F}')
    || c == '\U{85}' || c == '\U{A0}' || c == '\U{1680}'
    || ('\U{2000}' <= c <= '\U{200A}') || c == '\U{2028}' || c == '\U{2029}'
    || c == '\U{202F}' || c == '\U{205F}' || c == '\U{3000}'
  }

  /** Length of the longest prefix of `s` whose characters all satisfy `p`. */
  function LeadingRun(s: string, p: char -> bool): (n: nat)
    ensures n <= |s|
    ensures forall k :: 0 <= k < n ==> p(s[k])
    ensures n < |s| ==> !p(s[n])
  {
    if s == [] || !p(s[0]) then 0 else 1 + LeadingRun(s[1..], p)
  }

  /** Length of the longest suffix of `s` whose characters all satisfy `p`. */
  function TrailingRun(s: string, p: char -> bool): (n: nat)
    ensures n <= |s|
    ensures forall k :: |s| - n <= k < |s| ==> p(s[k])
    ensures n < |s| ==> !p(s[|s| - 1 - n])
  {
    if s == [] || !p(s[|s| - 1]) then 0 else 1 + TrailingRun(s[..|s| - 1], p)
  }

  /** `s` without its longest prefix and suffix of characters satisfying
      `p`. */
  function Trim(s: string, p: char -> bool): (r: string)
    ensures |r| <= |s|
  {
    var t := s[LeadingRun(s, p)..];
    t[..|t| - TrailingRun(t, p)]
  }

  /** Nothing is left exactly when every character satisfies `p`. */
  lemma TrimEmpty(s: string, p: char -> bool)
    ensures Trim(s, p) == [] <==> forall k :: 0 <= k < |s| ==> p(s[k])
  {
    var a := LeadingRun(s, p);
    var t := s[a..];
    assert forall k :: a <= k < |s| ==> s[k] == t[k - a];
  }

  /** What is left starts and ends with a character that fails `p`. */
  lemma TrimEnds(s: string, p: char -> bool)
    ensures var r := Trim(s, p); r != [] ==> !p(r[0]) && !p(r[|r| - 1])
  {
    var a := LeadingRun(s, p);
    var t := s[a..];
    var b := TrailingRun(t, p);
    var r := t[..|t| - b];
    assert r == Trim(s, p);
    if r != [] {
      assert r[0] == s[a];
      assert r[|r| - 1] == t[|t| - 1 - b];
    }
  }

  /** What is left is a slice of `s` with only characters satisfying `p`
      outside it. */
  lemma TrimSlice(s: string, p: char -> bool) returns (a: nat, b: nat)
    ensures a <= b <= |s| && Trim(s, p) == s[a..b]
    ensures forall k :: 0 <= k < a ==> p(s[k])
    ensures forall k :: b <= k < |s| ==> p(s[k])
  {
    a := LeadingRun(s, p);
    var t := s[a..];
    var n := TrailingRun(t, p);
    b := a + |t| - n;
    assert t[..|t| - n] == s[a..b];
    assert forall k :: b <= k < |s| ==> s[k] == t[k - a];
  }

  /** Python's `s.strip()`: `s` without its leading and trailing whitespace
      (`StripSlice` states that the result is the slice between them). */
  function Strip(s: string): (r: string)
    ensures r == [] <==> forall k :: 0 <= k < |s| ==> IsSpace(s[k])
    ensures r != [] ==> !IsSpace(r[0]) && !IsSpace(r[|r| - 1])
    ensures |r| <= |s|
  {
    TrimEmpty(s, IsSpace);
    TrimEnds(s, IsSpace);
    Trim(s, IsSpace)
  }

  /** The stripped text is the slice of `s` between a whitespace prefix and
      a whitespace suffix; with the end characters that `Strip` ensures are
      not whitespace, this fixes the result. */
  lemma StripSlice(s: string) returns (a: nat, b: nat)
    ensures a <= b <= |s| && Strip(s) == s[a..b]
    ensures forall k :: 0 <= k < a ==> IsSpace(s[k])
    ensures forall k :: b <= k < |s| ==> IsSpace(s[k])
  {
    a, b := TrimSlice(s, IsSpace);
  }

  /** Position of the first occurrence of `c` in `s`, as `s.index(c)` finds
      it; `None` where `s.index(c)` would raise `ValueError`. */
  function Find(s: string, c: char): (r: Option<nat>)
    ensures r.None? <==> c !in s
    ensures r.Some? ==> r.value < |s| && s[r.value] == c && c !in s[..r.value]
  {
    if s == [] then None
    else if s[0] == c then Some(0)
    else
      match Find(s[1..], c)
      case None => None
      case Some(i) =>
        assert s[..i + 1] == [s[0]] + s[1..][..i];
        Some(i + 1)
  }

  /** Python's `s[lo:hi]` for non-negative bounds: bounds past the end are
      clamped to it, and a slice whose start is not before its end is empty. */
  function Slice(s: string, lo: nat, hi: nat): (r: string)
    ensures lo <= hi <= |s| ==> r == s[lo..hi]
    ensures hi <= lo ==> r == []
  {
    var a := if lo <= |s| then lo else |s|;
    var b := if hi <= |s| then hi else |s|;
    if a <= b then s[a..b] else []
  }

  /** The reference for `Split`: the pieces glued back together with `sep`. */
  function Join(parts: seq<string>, sep: char): string {
    if |parts| == 0 then []
    else if |parts| == 1 then parts[0]
    else parts[0] + [sep] + Join(parts[1..], sep)
  }

  /** Python's `s.split(sep)` for a one-character separator: at least one
      piece, no piece holds `sep`, and joining the pieces with `sep` gives
      back `s` (`SplitUnique` shows these three facts determine the result). */
  function Split(s: string, sep: char): (r: seq<string>)
    ensures |r| >= 1
    ensures forall k :: 0 <= k < |r| ==> sep !in r[k]
    ensures Join(r, sep) == s
    decreases |s|
  {
    match Find(s, sep)
    case None => [s]
    case Some(i) =>
      var rest := Split(s[i + 1..], sep);
      assert s == s[..i] + [sep] + s[i + 1..];
      assert ([s[..i]] + rest)[1..] == rest;
      [s[..i]] + rest
  }

  /** Any list of `sep`-free pieces (at least one) whose join is `s` is the
      result of splitting `s`. */
  lemma {:induction false} SplitUnique(s: string, sep: char, parts: seq<string>)
    requires |parts| >= 1
    requires forall k :: 0 <= k < |parts| ==> sep !in parts[k]
    requires Join(parts, sep) == s
    ensures Split(s, sep) == parts
    decreases |parts|
  {
    if |parts| == 1 {
      assert s == parts[0];
    } else {
      var p := parts[0];
      var tail := Join(parts[1..], sep);
      assert s == p + [sep] + tail;
      var n := |p|;
      assert s[n] == sep;
      assert s[..n] == p;
      var f := Find(s, sep);
      assert f == Some(n) by {
        assert forall k :: 0 <= k < n ==> s[k] == p[k];
      }
      assert s[n + 1..] == tail;
      forall k | 0 <= k < |parts[1..]|
        ensures sep !in parts[1..][k]
      {
        assert parts[1..][k] == parts[k + 1];
      }
      SplitUnique(tail, sep, parts[1..]);
      assert parts == [p] + parts[1..];
    }
  }

  /** Each piece followed by `sep`: text built line by line, every line
      ending in a line break. */
  function Terminated(lines: seq<string>, sep: char): string {
    if lines == [] then [] else lines[0] + [sep] + Terminated(lines[1..], sep)
  }

  lemma {:induction false} TerminatedAppend(a: seq<string>, b: seq<string>, sep: char)
    ensures Terminated(a + b, sep) == Terminated(a, sep) + Terminated(b, sep)
    decreases |a|
  {
    if a != [] {
      assert (a + b)[1..] == a[1..] + b;
      TerminatedAppend(a[1..], b, sep);
    } else {
      assert a + b == b;
    }
  }

  /** Regrouping of a text that grows at its end. */
  lemma AppendLine(p: string, t: string, x: string, sep: char)
    ensures p + t + (x + [sep]) == p + (t + x + [sep])
  {
  }

  /** One more line appends that line and its terminator. */
  lemma TerminatedSnoc(a: seq<string>, x: string, sep: char)
    ensures Terminated(a + [x], sep) == Terminated(a, sep) + x + [sep]
  {
    TerminatedAppend(a, [x], sep);
    assert [x][1..] == [];
    assert Terminated([x], sep) == x + [sep] + [];
    assert x + [sep] + [] == x + [sep];
  }

  /** Splitting text that starts with a `sep`-free piece and a `sep` gives
      that piece first. */
  lemma SplitFirst(x: string, y: string, sep: char)
    requires sep !in x
    ensures Split(x + [sep] + y, sep) == [x] + Split(y, sep)
  {
    var s := x + [sep] + y;
    assert s[|x|] == sep;
    assert s[..|x|] == x;
    assert Find(s, sep) == Some(|x|) by {
      assert forall k :: 0 <= k < |x| ==> s[k] == x[k];
    }
    assert s[|x| + 1..] == y;
  }

  lemma ConsAppend<T>(s: seq<T>, t: seq<T>)
    requires s != []
    ensures [s[0]] + (s[1..] + t) == s + t
  {
    assert s == [s[0]] + s[1..];
  }

  lemma EmptyMiddle<T>(a: seq<T>, b: seq<T>)
    ensures a + [] + b == a + b
  {
  }

  /** Splitting a run of terminated `sep`-free lines, followed by more text,
      gives back those lines and then the pieces of the rest. */
  lemma {:induction false} SplitTerminated(lines: seq<string>, rest: string, sep: char)
    requires forall k :: 0 <= k < |lines| ==> sep !in lines[k]
    ensures Split(Terminated(lines, sep) + rest, sep) == lines + Split(rest, sep)
    decreases |lines|
  {
    if lines != [] {
      var tail := lines[1..];
      assert forall k :: 0 <= k < |tail| ==> tail[k] == lines[k + 1];
      var whole, after := Terminated(lines, sep) + rest, Terminated(tail, sep) + rest;
      assert whole == lines[0] + [sep] + after;
      SplitFirst(lines[0], after, sep);
      SplitTerminated(tail, rest, sep);
      ConsAppend(lines, Split(rest, sep));
    } else {
      assert Terminated(lines, sep) + rest == rest;
      assert lines + Split(rest, sep) == Split(rest, sep);
    }
  }

  lemma FreeAppend(a: seq<string>, b: seq<string>, sep: char)
    requires forall k :: 0 <= k < |a| ==> sep !in a[k]
    requires forall k :: 0 <= k < |b| ==> sep !in b[k]
    ensures forall k :: 0 <= k < |a + b| ==> sep !in (a + b)[k]
  {
  }

  /** A text of terminated `sep`-free lines splits into those lines and the
      empty piece after the last separator. */
  lemma SplitLines(lines: seq<string>, sep: char)
    requires forall k :: 0 <= k < |lines| ==> sep !in lines[k]
    ensures Split(Terminated(lines, sep), sep) == lines + [[]]
  {
    assert Terminated(lines, sep) + [] == Terminated(lines, sep);
    SplitTerminated(lines, [], sep);
    SplitUnique([], sep, [[]]);
  }

  /** Three runs of terminated `sep`-free lines, one after the other, split
      into all their lines in order and the empty last piece. */
  lemma SplitThreeRuns(a: seq<string>, b: seq<string>, c: seq<string>, sep: char)
    requires forall k :: 0 <= k < |a| ==> sep !in a[k]
    requires forall k :: 0 <= k < |b| ==> sep !in b[k]
    requires forall k :: 0 <= k < |c| ==> sep !in c[k]
    ensures Split(Terminated(a, sep) + Terminated(b, sep) + Terminated(c, sep), sep) == a + b + c + [[]]
  {
    TerminatedAppend(a, b, sep);
    TerminatedAppend(a + b, c, sep);
    FreeAppend(a, b, sep);
    FreeAppend(a + b, c, sep);
    SplitLines(a + b + c, sep);
  }

  predicate IsDigit(c: char) {
    '0' <= c <= '9'
  }

  /** A non-empty run of decimal digits. */
  predicate IsDecimal(s: string) {
    |s| >= 1 && forall k :: 0 <= k < |s| ==> IsDigit(s[k])
  }

  /** The number a run of decimal digits denotes (the reference for
      `NatToString`). */
  function DecimalValue(s: string): nat
    requires forall k :: 0 <= k < |s| ==> IsDigit(s[k])
  {
    if s == [] then 0
    else
      assert IsDigit(s[|s| - 1]);
      DecimalValue(s[..|s| - 1]) * 10 + (s[|s| - 1] as int - '0' as int)
  }

  function DigitChar(d: nat): (c: char)
    requires d < 10
    ensures IsDigit(c) && c as int - '0' as int == d
  {
    "0123456789"[d]
  }

  /** `f"{n}"` for a non-negative Python `int`: its decimal digits, without
      leading zeros, denoting `n`. */
  function NatToString(n: nat): (s: string)
    ensures IsDecimal(s)
    ensures DecimalValue(s) == n
    ensures |s| > 1 ==> s[0] != '0'
  {
    if n < 10 then [DigitChar(n)]
    else
      var s := NatToString(n / 10) + [DigitChar(n % 10)];
      assert s[..|s| - 1] == NatToString(n / 10);
      s
  }
}
