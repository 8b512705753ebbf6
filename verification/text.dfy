/** The few `str` methods the core relies on: `strip()`, `split(sep)` and
    `splitlines()`, over Python's notion of whitespace and line boundaries.
 */
module Text {
  import opened Seqs

  /** `str.isspace()` for one character, which is also what `strip()` removes
      and what `\s` matches in a `str` regular expression: the ASCII
      whitespace 0x09-0x0D, the separators 0x1C-0x1F, the space, and the
      Unicode spaces and separators. */
  predicate IsSpace(c: char) {
    || ('\U{9}' <= c <= '\U{D}') || ('\U{1C}' <= c <= '\U{1F}') || c == ' '
    || c == '\U{85}' || c == '\U{A0}' || c == '\U{1680}' || ('\U{2000}' <= c <= '\U{200A}')
    || c == '\U{2028}' || c == '\U{2029}' || c == '\U{202F}' || c == '\U{205F}' || c == '\U{3000}'
  }

  /** The characters `str.splitlines()` breaks at; "\r\n" counts as one break. */
  predicate IsLineBreak(c: char) {
    || c == '\n' || c == '\r' || c == '\U{B}' || c == '\U{C}' || c == '\U{1C}' || c == '\U{1D}'
    || c == '\U{1E}' || c == '\U{85}' || c == '\U{2028}' || c == '\U{2029}'
  }

  predicate NotLineBreak(c: char) { !IsLineBreak(c) }

  /** A line as `splitlines()` returns it: no break inside. */
  predicate IsLine(l: string) {
    forall j | 0 <= j < |l| :: NotLineBreak(l[j])
  }

  /** The length of the longest prefix of `s` whose characters satisfy `p`. */
  function PrefixRun(s: string, p: char -> bool): (k: nat)
    ensures k <= |s|
    ensures forall j | 0 <= j < k :: p(s[j])
    ensures k < |s| ==> !p(s[k])
  {
    if |s| == 0 || !p(s[0]) then 0 else 1 + PrefixRun(s[1..], p)
  }

  /** The length of the longest suffix of `s` whose characters satisfy `p`. */
  function SuffixRun(s: string, p: char -> bool): (k: nat)
    ensures k <= |s|
    ensures forall j | |s| - k <= j < |s| :: p(s[j])
    ensures k < |s| ==> !p(s[|s| - 1 - k])
  {
    if |s| == 0 || !p(s[|s| - 1]) then 0 else 1 + SuffixRun(s[..|s| - 1], p)
  }

  /** `s.strip()`: `s` without its leading and trailing whitespace. */
  function Strip(s: string): (r: string)
    ensures |r| <= |s|
    ensures |r| > 0 ==> !IsSpace(r[0]) && !IsSpace(r[|r| - 1])
    ensures r == [] ==> forall j | 0 <= j < |s| :: IsSpace(s[j])
  {
    var a := PrefixRun(s, IsSpace);
    if a == |s| then ""
    else
      var b := |s| - SuffixRun(s, IsSpace);
      s[a..b]
  }

  /** The longest run is the one that stops where `p` first fails. */
  lemma PrefixRunIs(s: string, p: char -> bool, k: nat)
    requires k <= |s| && (forall j | 0 <= j < k :: p(s[j])) && (k < |s| ==> !p(s[k]))
    ensures PrefixRun(s, p) == k
  {
  }

  lemma SuffixRunIs(s: string, p: char -> bool, k: nat)
    requires k <= |s| && (forall j | |s| - k <= j < |s| :: p(s[j])) && (k < |s| ==> !p(s[|s| - 1 - k]))
    ensures SuffixRun(s, p) == k
  {
  }

  /** Whitespace around a string that neither starts nor ends with
      whitespace is exactly what `strip()` removes. */
  lemma StripPadded(before: string, s: string, after: string)
    requires forall j | 0 <= j < |before| :: IsSpace(before[j])
    requires forall j | 0 <= j < |after| :: IsSpace(after[j])
    requires |s| > 0 ==> !IsSpace(s[0]) && !IsSpace(s[|s| - 1])
    ensures Strip(before + s + after) == s
  {
    var t := before + s + after;
    if |s| == 0 {
      forall j | 0 <= j < |t| ensures IsSpace(t[j]) {
        if j < |before| { assert t[j] == before[j]; } else { assert t[j] == after[j - |before|]; }
      }
      PrefixRunIs(t, IsSpace, |t|);
    } else {
      assert PrefixRun(t, IsSpace) == |before| by {
        forall j | 0 <= j < |before| ensures IsSpace(t[j]) { assert t[j] == before[j]; }
        assert t[|before|] == s[0];
        PrefixRunIs(t, IsSpace, |before|);
      }
      assert SuffixRun(t, IsSpace) == |after| by {
        forall j | |t| - |after| <= j < |t| ensures IsSpace(t[j]) {
          assert t[j] == after[j - |before| - |s|];
        }
        assert t[|t| - 1 - |after|] == s[|s| - 1];
        SuffixRunIs(t, IsSpace, |after|);
      }
      assert t[|before|..|t| - |after|] == s;
    }
  }

  /** `strip()` is idempotent. */
  lemma StripTwice(s: string)
    ensures Strip(Strip(s)) == Strip(s)
  {
    StripPadded([], Strip(s), []);
    assert [] + Strip(s) + [] == Strip(s);
  }

  /** Where the first `sep` in `s` is, or `|s|` when there is none. */
  function Find(s: string, sep: char): (k: nat)
    ensures k <= |s|
    ensures forall j | 0 <= j < k :: s[j] != sep
    ensures k < |s| ==> s[k] == sep
  {
    if |s| == 0 || s[0] == sep then 0 else 1 + Find(s[1..], sep)
  }

  /** `s.split(sep)`: the pieces between the separators, always at least one. */
  function Split(s: string, sep: char): (r: seq<string>)
    ensures |r| >= 1
    ensures forall i, j | 0 <= i < |r| && 0 <= j < |r[i]| :: r[i][j] != sep
  {
    var k := Find(s, sep);
    if k == |s| then [s] else [s[..k]] + Split(s[k + 1..], sep)
  }

  /** The pieces joined back with the separator. */
  function Join(parts: seq<string>, sep: char): string
    requires |parts| >= 1
  {
    if |parts| == 1 then parts[0] else parts[0] + [sep] + Join(parts[1..], sep)
  }

  /** The first piece and the rest, when `s` holds the separator. */
  lemma SplitStep(s: string, sep: char, k: nat)
    requires k == Find(s, sep) && k < |s|
    ensures Split(s, sep) == [s[..k]] + Split(s[k + 1..], sep)
  {
  }

  /** `s` around one of its characters. */
  lemma Around(s: string, k: nat)
    requires k < |s|
    ensures s == s[..k] + [s[k]] + s[k + 1..]
  {
    assert s[k..] == [s[k]] + s[k + 1..];
    assert s == s[..k] + s[k..];
  }

  /** Splitting loses nothing: joining the pieces restores the string. */
  lemma {:induction false} SplitJoin(s: string, sep: char)
    ensures Join(Split(s, sep), sep) == s
  {
    var k := Find(s, sep);
    if k < |s| {
      SplitStep(s, sep, k);
      Around(s, k);
      var rest := Split(s[k + 1..], sep);
      SplitJoin(s[k + 1..], sep);
      assert ([s[..k]] + rest)[1..] == rest;
      assert Join([s[..k]] + rest, sep) == s[..k] + [sep] + Join(rest, sep);
    }
  }

  /** There is one more piece than there are separators. */
  lemma {:induction false} SplitCount(s: string, sep: char)
    ensures |Split(s, sep)| == Count(s, sep) + 1
  {
    var k := Find(s, sep);
    if k == |s| {
      CountAbsent(s, sep);
    } else {
      SplitStep(s, sep, k);
      Around(s, k);
      SplitCount(s[k + 1..], sep);
      CountAbsent(s[..k], sep);
      CountAppend(s[..k] + [sep], s[k + 1..], sep);
      CountAppend(s[..k], [sep], sep);
    }
  }

  lemma {:induction false} CountAbsent(s: string, x: char)
    requires forall j | 0 <= j < |s| :: s[j] != x
    ensures Count(s, x) == 0
  {
    if |s| > 0 {
      CountAbsent(s[1..], x);
    }
  }

  lemma {:induction false} CountAppend(a: string, b: string, x: char)
    ensures Count(a + b, x) == Count(a, x) + Count(b, x)
  {
    if |a| > 0 {
      assert (a + b)[1..] == a[1..] + b;
      CountAppend(a[1..], b, x);
    } else {
      assert a + b == b;
    }
  }

  /** How many characters the line break starting at `s[k]` takes. */
  function BreakLength(s: string, k: nat): nat
    requires k < |s|
  {
    if s[k] == '\r' && k + 1 < |s| && s[k + 1] == '\n' then 2 else 1
  }

  /** `s.splitlines()`: the lines without their breaks; a final break does
      not start another line, and the empty string has no lines. */
  function SplitLines(s: string): (r: seq<string>)
    ensures forall i | 0 <= i < |r| :: IsLine(r[i])
    decreases |s|
  {
    if |s| == 0 then []
    else
      var k := PrefixRun(s, NotLineBreak);
      if k == |s| then [s] else [s[..k]] + SplitLines(s[k + BreakLength(s, k)..])
  }

  /** Lines each terminated by "\n", as a file written line by line. */
  function Terminated(lines: seq<string>): string {
    if |lines| == 0 then "" else lines[0] + "\n" + Terminated(lines[1..])
  }

  /** `splitlines()` recovers lines that were written out with a "\n" after
      each, as long as no line holds a break of its own. */
  lemma {:induction false} SplitLinesTerminated(lines: seq<string>)
    requires forall i | 0 <= i < |lines| :: IsLine(lines[i])
    ensures SplitLines(Terminated(lines)) == lines
  {
    if |lines| > 0 {
      var s := Terminated(lines);
      var l := lines[0];
      var rest := Terminated(lines[1..]);
      assert s == l + "\n" + rest;
      assert forall j | 0 <= j < |l| :: s[j] == l[j];
      assert s[|l|] == '\n';
      assert !NotLineBreak(s[|l|]);
      assert PrefixRun(s, NotLineBreak) == |l|;
      assert BreakLength(s, |l|) == 1;
      assert s[|l| + 1..] == rest;
      assert s[..|l|] == l;
      SplitLinesTerminated(lines[1..]);
    }
  }
}
