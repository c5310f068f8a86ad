/**
  The Python string built-ins the back end applies to page text: `str.isspace`
  for one character, `str.strip()` with no argument, `str.splitlines()` and
  `str.split("  ")`.
 */
module PyStr {
  import Strings

  /**
    The characters for which Python's `str.isspace` holds: the ASCII controls
    tab to carriage return, the four separators 0x1C..0x1F, space, NEL,
    no-break space and the Unicode space separators and line/paragraph separators.
   */
  predicate IsSpace(c: char) {
    ('\t' <= c <= '\r') || ('\U{1c}' <= c <= '\U{1f}') || c == ' '
    || c == '\U{85}' || c == '\U{a0}' || c == '\U{1680}'
    || ('\U{2000}' <= c <= '\U{200a}') || c == '\U{2028}' || c == '\U{2029}'
    || c == '\U{202f}' || c == '\U{205f}' || c == '\U{3000}'
  }

  /**
    The characters at which `str.splitlines` ends a line: line feed, vertical tab,
    form feed, carriage return, the separators 0x1C..0x1E, NEL and the Unicode
    line and paragraph separators.
   */
  predicate IsLineBreak(c: char) {
    c == '\n' || c == '\U{b}' || c == '\U{c}' || c == '\r'
    || ('\U{1c}' <= c <= '\U{1e}') || c == '\U{85}' || c == '\U{2028}' || c == '\U{2029}'
  }

  predicate NoLineBreak(s: string) {
    forall i :: 0 <= i < |s| ==> !IsLineBreak(s[i])
  }

  /** No two adjacent characters of `s` are both spaces. */
  predicate NoDoubleSpace(s: string) {
    forall i, j :: 0 <= i < |s| && j == i + 1 && j < |s| ==> !(s[i] == ' ' && s[j] == ' ')
  }

  /** `s.strip()`: `s` without leading and trailing whitespace. */
  function Strip(s: string): (r: string)
    ensures |r| <= |s|
    ensures Strings.IsStripped(r, IsSpace)
  {
    Strings.Strip(s, IsSpace)
  }

  /** Stripping keeps a string free of line breaks and of two spaces in a row. */
  lemma StripKeeps(s: string)
    ensures NoLineBreak(s) ==> NoLineBreak(Strip(s))
    ensures NoDoubleSpace(s) ==> NoDoubleSpace(Strip(s))
  {
    Strings.StripSlice(s, IsSpace);
    var i := Strings.LeadCount(s, IsSpace);
    var r := Strip(s);
    assert forall k :: 0 <= k < |r| ==> r[k] == s[i + k];
  }

  /** The index of the first line-break character of `s` at or after `i`, or `|s|` when there is none. */
  function BreakFrom(s: string, i: nat): (k: nat)
    requires i <= |s|
    ensures i <= k <= |s|
    ensures forall j :: i <= j < k ==> !IsLineBreak(s[j])
    ensures k < |s| ==> IsLineBreak(s[k])
    decreases |s| - i
  {
    if i == |s| || IsLineBreak(s[i]) then i else BreakFrom(s, i + 1)
  }

  /** The index of the first line-break character of `s`, or `|s|` when there is none. */
  function FirstBreak(s: string): (k: nat)
    ensures k <= |s|
    ensures NoLineBreak(s[..k])
    ensures k < |s| ==> IsLineBreak(s[k])
  {
    var k := BreakFrom(s, 0);
    assert forall j :: 0 <= j < k ==> s[..k][j] == s[j];
    k
  }

  /** The length of the line boundary at index `k`: a carriage return followed by a line feed counts as one. */
  function BreakLength(s: string, k: nat): (n: nat)
    requires k < |s|
    ensures 1 <= n <= 2 && k + n <= |s|
  {
    if s[k] == '\r' && k + 1 < |s| && s[k + 1] == '\n' then 2 else 1
  }

  /**
    `s.splitlines()`: the lines of `s` without their line boundaries; an empty
    string has no lines and a final line boundary does not start another line.
   */
  function SplitLines(s: string): (r: seq<string>)
    ensures forall i :: 0 <= i < |r| ==> NoLineBreak(r[i])
    decreases |s|
  {
    if |s| == 0 then []
    else
      var k := FirstBreak(s);
      if k == |s| then [s] else [s[..k]] + SplitLines(s[k + BreakLength(s, k)..])
  }

  /** A non-empty string without line breaks is one line. */
  lemma SplitLinesNone(s: string)
    requires |s| > 0 && NoLineBreak(s)
    ensures SplitLines(s) == [s]
  {
    assert FirstBreak(s) == |s|;
  }

  /** A line feed after a line without line breaks ends that line. */
  lemma SplitLinesCons(p: string, tail: string)
    requires NoLineBreak(p)
    ensures SplitLines(p + "\n" + tail) == [p] + SplitLines(tail)
  {
    var s := p + "\n" + tail;
    assert s[|p|] == '\n';
    assert s[..|p|] == p;
    assert FirstBreak(s) == |p|;
    assert BreakLength(s, |p|) == 1;
    assert s[|p| + 1..] == tail;
  }

  /** Splitting into lines a newline-join of non-empty lines without line breaks gives the lines back. */
  lemma {:induction false} SplitLinesJoin(lines: seq<string>)
    requires forall i :: 0 <= i < |lines| ==> |lines[i]| > 0 && NoLineBreak(lines[i])
    ensures SplitLines(Strings.Join(lines, "\n")) == lines
    decreases |lines|
  {
    if |lines| == 1 {
      SplitLinesNone(lines[0]);
    } else if |lines| > 1 {
      SplitLinesCons(lines[0], Strings.Join(lines[1..], "\n"));
      SplitLinesJoin(lines[1..]);
      assert lines == [lines[0]] + lines[1..];
    }
  }

  /** The index of the leftmost `"  "` in `s` at or after `i`, or `|s|` when there is none. */
  function DoubleSpaceFrom(s: string, i: nat): (k: nat)
    requires i <= |s|
    ensures i <= k <= |s|
    ensures k < |s| ==> k + 1 < |s| && s[k] == ' ' && s[k + 1] == ' '
    ensures forall j, j' :: i <= j < k && j' == j + 1 && j' < |s| ==> !(s[j] == ' ' && s[j'] == ' ')
    decreases |s| - i
  {
    if i + 1 >= |s| then |s|
    else if s[i] == ' ' && s[i + 1] == ' ' then i
    else DoubleSpaceFrom(s, i + 1)
  }

  /** The index of the leftmost `"  "` in `s`, or `|s|` when there is none. */
  function IndexOfDoubleSpace(s: string): (k: nat)
    ensures k <= |s|
    ensures k < |s| ==> k + 1 < |s| && s[k] == ' ' && s[k + 1] == ' '
    ensures forall j, j' :: 0 <= j < k && j' == j + 1 && j' < |s| ==> !(s[j] == ' ' && s[j'] == ' ')
    ensures NoDoubleSpace(s[..k])
  {
    var k := DoubleSpaceFrom(s, 0);
    assert forall j :: 0 <= j < k ==> s[..k][j] == s[j];
    k
  }

  /**
    `s.split("  ")`: the pieces between leftmost, non-overlapping occurrences of
    two spaces; empty pieces are kept, and each piece is free of two spaces in a row.
   */
  function SplitDoubleSpace(s: string): (r: seq<string>)
    ensures |r| >= 1
    ensures r[0] == s[..IndexOfDoubleSpace(s)]
    ensures forall i :: 0 <= i < |r| ==> NoDoubleSpace(r[i])
    ensures NoLineBreak(s) ==> forall i :: 0 <= i < |r| ==> NoLineBreak(r[i])
    decreases |s|
  {
    var k := IndexOfDoubleSpace(s);
    if k == |s| then [s] else [s[..k]] + SplitDoubleSpace(s[k + 2..])
  }

  /** The first piece of `s.split("  ")` ends at the leftmost two spaces. */
  lemma SplitDoubleSpaceCons(s: string)
    requires IndexOfDoubleSpace(s) < |s|
    ensures var k := IndexOfDoubleSpace(s);
            SplitDoubleSpace(s) == [s[..k]] + SplitDoubleSpace(s[k + 2..])
  {
  }

  /** Two spaces are the string `"  "`. */
  lemma TwoSpaces(t: string)
    requires |t| == 2 && t[0] == ' ' && t[1] == ' '
    ensures t == "  "
  {
  }

  /** Joining the pieces of `s.split("  ")` with two spaces gives back `s`. */
  lemma {:induction false} JoinSplitDoubleSpace(s: string)
    ensures Strings.Join(SplitDoubleSpace(s), "  ") == s
    decreases |s|
  {
    var k := IndexOfDoubleSpace(s);
    if k < |s| {
      SplitDoubleSpaceCons(s);
      Strings.JoinCons(s[..k], SplitDoubleSpace(s[k + 2..]), "  ");
      JoinSplitDoubleSpace(s[k + 2..]);
      Strings.SliceAround(s, k, 2);
      TwoSpaces(s[k..k + 2]);
    }
  }

  /** Three spaces in a row: the leftmost two separate, the third starts the next piece. */
  lemma SplitDoubleSpaceExample()
    ensures SplitDoubleSpace("a   b") == ["a", " b"]
  {
    var s := "a   b";
    assert s[0] == 'a';
    assert IndexOfDoubleSpace(s) == 1;
    assert s[..1] == "a" && s[3..] == " b";
    assert IndexOfDoubleSpace(" b") == 2;
  }

  /** A string without two spaces in a row is its own one and only piece. */
  lemma SplitDoubleSpaceNone(s: string)
    requires NoDoubleSpace(s)
    ensures SplitDoubleSpace(s) == [s]
  {
    assert IndexOfDoubleSpace(s) == |s|;
  }
}
