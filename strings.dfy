/** Option and Result, the two wrappers the model uses for absent values and error returns, and the truthiness of an optional string. */
module Wrappers {
  datatype Option<+T> = None | Some(value: T)

  datatype Result<+T, +E> = Ok(value: T) | Err(error: E)

  /**
    Truthiness of an optional string field, which Python and JavaScript agree
    on: the field is present and not the empty string.
   */
  predicate Truthy(s: Option<string>) {
    s.Some? && s.value != ""
  }
}

/**
  String operations shared by the Python back end and the JavaScript front end:
  joining with a separator, splitting on one character (the JavaScript
  `split` and the Python `split` agree for a one-character separator),
  stripping with a given whitespace predicate, and repeating a character.
 */
module Strings {

  /** Every character of `s` satisfies `ws`. */
  predicate AllWs(s: string, ws: char -> bool) {
    forall i :: 0 <= i < |s| ==> ws(s[i])
  }

  /** Neither the first nor the last character of `s` satisfies `ws`. */
  predicate IsStripped(s: string, ws: char -> bool) {
    |s| == 0 || (!ws(s[0]) && !ws(s[|s| - 1]))
  }

  /** `sep.join(parts)` in Python, `parts.join(sep)` in JavaScript. */
  function Join(parts: seq<string>, sep: string): string
    decreases |parts|
  {
    if |parts| == 0 then ""
    else if |parts| == 1 then parts[0]
    else parts[0] + sep + Join(parts[1..], sep)
  }

  /** A join whose first piece is non-empty is non-empty. */
  lemma JoinNonEmpty(parts: seq<string>, sep: string)
    requires |parts| > 0 && |parts[0]| > 0
    ensures |Join(parts, sep)| > 0
  {
  }

  /** Joining pieces that are each no longer than their counterparts gives a string no longer than their join. */
  lemma {:induction false} JoinShorter(a: seq<string>, b: seq<string>, sep: string)
    requires |a| == |b|
    requires forall i :: 0 <= i < |a| ==> |a[i]| <= |b[i]|
    ensures |Join(a, sep)| <= |Join(b, sep)|
    decreases |a|
  {
    if |a| > 1 {
      JoinShorter(a[1..], b[1..], sep);
    }
  }

  /** Joining a first piece in front of at least one more piece puts the separator between them. */
  lemma JoinCons(first: string, rest: seq<string>, sep: string)
    requires |rest| >= 1
    ensures Join([first] + rest, sep) == first + sep + Join(rest, sep)
  {
    assert ([first] + rest)[1..] == rest;
  }

  /** The index of the first occurrence of `c` in `s` at or after `i`, or `|s|` when there is none. */
  function IndexFrom(s: string, c: char, i: nat): (k: nat)
    requires i <= |s|
    ensures i <= k <= |s|
    ensures forall j :: i <= j < k ==> s[j] != c
    ensures k < |s| ==> s[k] == c
    decreases |s| - i
  {
    if i == |s| || s[i] == c then i else IndexFrom(s, c, i + 1)
  }

  /** The index of the first occurrence of `c` in `s`, or `|s|` when there is none. */
  function IndexOf(s: string, c: char): (k: nat)
    ensures k <= |s|
    ensures c !in s[..k]
    ensures k < |s| ==> s[k] == c
  {
    var k := IndexFrom(s, c, 0);
    assert forall j :: 0 <= j < k ==> s[..k][j] == s[j];
    k
  }

  /** `s.split(c)`: the maximal runs of `s` between occurrences of `c`; empty runs are kept. */
  function Split(s: string, c: char): (r: seq<string>)
    ensures |r| >= 1
    ensures forall i :: 0 <= i < |r| ==> c !in r[i]
    decreases |s|
  {
    var k := IndexOf(s, c);
    if k == |s| then [s] else [s[..k]] + Split(s[k + 1..], c)
  }

  /** Joining the pieces of a split with the separator gives back the original string. */
  lemma {:induction false} JoinSplit(s: string, c: char)
    ensures Join(Split(s, c), [c]) == s
    decreases |s|
  {
    var k := IndexOf(s, c);
    if k < |s| {
      var rest := Split(s[k + 1..], c);
      JoinSplit(s[k + 1..], c);
      assert Split(s, c) == [s[..k]] + rest;
      assert s == s[..k] + [c] + s[k + 1..];
    }
  }

  /** A string without the separator is its own one and only piece. */
  lemma SplitNone(s: string, c: char)
    requires c !in s
    ensures Split(s, c) == [s]
  {
    assert IndexOf(s, c) == |s|;
  }

  /** The first piece ends at the first separator. */
  lemma SplitCons(p: string, c: char, tail: string)
    requires c !in p
    ensures Split(p + [c] + tail, c) == [p] + Split(tail, c)
  {
    var s := p + [c] + tail;
    assert s[|p|] == c;
    assert s[..|p|] == p;
    assert IndexOf(s, c) == |p|;
    assert s[|p| + 1..] == tail;
  }

  /** Splitting a join of separator-free pieces gives back the pieces. */
  lemma {:induction false} SplitJoin(parts: seq<string>, c: char)
    requires |parts| >= 1
    requires forall i :: 0 <= i < |parts| ==> c !in parts[i]
    ensures Split(Join(parts, [c]), c) == parts
    decreases |parts|
  {
    if |parts| == 1 {
      SplitNone(parts[0], c);
    } else {
      var tail := Join(parts[1..], [c]);
      SplitCons(parts[0], c, tail);
      SplitJoin(parts[1..], c);
      assert parts == [parts[0]] + parts[1..];
    }
  }

  /** The end of the run of `ws` characters of `s` that starts at index `i`. */
  function RunEnd(s: string, ws: char -> bool, i: nat): (n: nat)
    requires i <= |s|
    ensures i <= n <= |s|
    ensures n < |s| ==> !ws(s[n])
    decreases |s| - i
  {
    if i == |s| || !ws(s[i]) then i else RunEnd(s, ws, i + 1)
  }

  /** Every character of the run that `RunEnd` skips satisfies `ws`. */
  lemma {:induction false} RunEndAll(s: string, ws: char -> bool, i: nat)
    requires i <= |s|
    ensures forall k :: i <= k < RunEnd(s, ws, i) ==> ws(s[k])
    decreases |s| - i
  {
    if i < |s| && ws(s[i]) {
      RunEndAll(s, ws, i + 1);
    }
  }

  /** The start of the run of `ws` characters of `s` that ends at index `j`, going back no further than `lo`. */
  function RunStart(s: string, ws: char -> bool, lo: nat, j: nat): (m: nat)
    requires lo <= j <= |s|
    ensures lo <= m <= j
    ensures lo < m ==> !ws(s[m - 1])
    decreases j
  {
    if j == lo || !ws(s[j - 1]) then j else RunStart(s, ws, lo, j - 1)
  }

  /** Every character of the run that `RunStart` skips satisfies `ws`. */
  lemma {:induction false} RunStartAll(s: string, ws: char -> bool, lo: nat, j: nat)
    requires lo <= j <= |s|
    ensures forall k :: RunStart(s, ws, lo, j) <= k < j ==> ws(s[k])
    decreases j
  {
    if j > lo && ws(s[j - 1]) {
      RunStartAll(s, ws, lo, j - 1);
    }
  }

  /** The number of leading characters of `s` that satisfy `ws`. */
  function LeadCount(s: string, ws: char -> bool): (n: nat)
    ensures n <= |s|
    ensures n < |s| ==> !ws(s[n])
  {
    RunEnd(s, ws, 0)
  }

  /** Every one of the leading characters that `LeadCount` counts satisfies `ws`. */
  lemma LeadCountAll(s: string, ws: char -> bool)
    ensures forall k :: 0 <= k < LeadCount(s, ws) ==> ws(s[k])
  {
    RunEndAll(s, ws, 0);
  }

  /** `s` with its leading and trailing `ws` characters removed; what is left neither starts nor ends with one. */
  function Strip(s: string, ws: char -> bool): (r: string)
    ensures |r| <= |s|
    ensures IsStripped(r, ws)
  {
    var i := LeadCount(s, ws);
    s[i..RunStart(s, ws, i, |s|)]
  }

  /**
    The stripped string is the middle of `s` that starts after its leading run,
    and everything cut off on either side satisfies `ws`.
   */
  lemma StripSlice(s: string, ws: char -> bool)
    ensures var i := LeadCount(s, ws);
            var r := Strip(s, ws);
            i + |r| <= |s| && r == s[i..i + |r|]
            && (forall k :: 0 <= k < i ==> ws(s[k]))
            && (forall k :: i + |r| <= k < |s| ==> ws(s[k]))
  {
    var i := LeadCount(s, ws);
    LeadCountAll(s, ws);
    RunStartAll(s, ws, i, |s|);
  }

  /** Stripping a string that is already stripped leaves it unchanged. */
  lemma StripStripped(s: string, ws: char -> bool)
    requires IsStripped(s, ws)
    ensures Strip(s, ws) == s
  {
    assert LeadCount(s, ws) == 0;
    assert RunStart(s, ws, 0, |s|) == |s|;
  }

  /** Characters put in front of a string that starts with a non-`ws` character are its leading run. */
  lemma LeadCountPrefix(p: string, t: string, ws: char -> bool)
    requires AllWs(p, ws)
    requires |t| > 0 && !ws(t[0])
    ensures LeadCount(p + t, ws) == |p|
  {
    var s := p + t;
    assert s[|p|] == t[0];
    assert forall i :: 0 <= i < |p| ==> s[i] == p[i];
    LeadCountAll(s, ws);
  }

  /** Stripping a whitespace prefix glued to a stripped, non-empty string gives back that string. */
  lemma StripPrefix(p: string, t: string, ws: char -> bool)
    requires AllWs(p, ws)
    requires |t| > 0 && IsStripped(t, ws)
    ensures Strip(p + t, ws) == t
  {
    var s := p + t;
    LeadCountPrefix(p, t, ws);
    assert s[|s| - 1] == t[|t| - 1];
    assert RunStart(s, ws, |p|, |s|) == |s|;
    assert s[|p|..] == t;
  }

  /** A string is its prefix up to `k`, the `n` characters from `k`, and the rest. */
  lemma SliceAround(s: string, k: nat, n: nat)
    requires k + n <= |s|
    ensures s == s[..k] + s[k..k + n] + s[k + n..]
  {
  }

  /** `f` applied to every string of `xs`, in order. */
  function Map(f: string -> string, xs: seq<string>): (r: seq<string>)
    ensures |r| == |xs|
    decreases |xs|
  {
    if |xs| == 0 then [] else Map(f, xs[..|xs| - 1]) + [f(xs[|xs| - 1])]
  }

  /** Position `i` of the mapped sequence is `f` of position `i`. */
  lemma {:induction false} MapAt(f: string -> string, xs: seq<string>, i: nat)
    requires i < |xs|
    ensures Map(f, xs)[i] == f(xs[i])
    decreases |xs|
  {
    var init := xs[..|xs| - 1];
    if i < |init| {
      MapAt(f, init, i);
      assert init[i] == xs[i];
    }
  }

  /** The sequences `f` gives for the strings of `xs`, concatenated in order. */
  function FlatMap(f: string -> seq<string>, xs: seq<string>): seq<string>
    decreases |xs|
  {
    if |xs| == 0 then [] else f(xs[0]) + FlatMap(f, xs[1..])
  }

  /** Flat-mapping works element by element: that of `a + b` is that of `a`, then that of `b`. */
  lemma {:induction false} FlatMapAppend(f: string -> seq<string>, a: seq<string>, b: seq<string>)
    ensures FlatMap(f, a + b) == FlatMap(f, a) + FlatMap(f, b)
    decreases |a|
  {
    if |a| > 0 {
      assert (a + b)[0] == a[0] && (a + b)[1..] == a[1..] + b;
      FlatMapAppend(f, a[1..], b);
    } else {
      assert a + b == b;
    }
  }

  /** When `f` maps every string satisfying `p` to strings satisfying `q`, flat-mapping strings satisfying `p` gives strings satisfying `q`. */
  lemma {:induction false} FlatMapAll(f: string -> seq<string>, xs: seq<string>, p: string -> bool, q: string -> bool)
    requires forall x, j :: p(x) && 0 <= j < |f(x)| ==> q(f(x)[j])
    ensures (forall i :: 0 <= i < |xs| ==> p(xs[i])) ==> forall i :: 0 <= i < |FlatMap(f, xs)| ==> q(FlatMap(f, xs)[i])
    decreases |xs|
  {
    if |xs| > 0 && forall i :: 0 <= i < |xs| ==> p(xs[i]) {
      FlatMapAll(f, xs[1..], p, q);
      var h, t := f(xs[0]), FlatMap(f, xs[1..]);
      assert p(xs[0]);
      forall i | 0 <= i < |h + t| ensures q((h + t)[i]) {
        if i < |h| {
          assert (h + t)[i] == h[i];
        } else {
          assert (h + t)[i] == t[i - |h|];
        }
      }
    }
  }

  /** `c` repeated `n` times (`c.repeat(n)` in JavaScript). */
  function Repeat(c: char, n: nat): (r: string)
    ensures |r| == n
    ensures forall i :: 0 <= i < n ==> r[i] == c
  {
    if n == 0 then "" else [c] + Repeat(c, n - 1)
  }
}
