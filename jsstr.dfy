/** The JavaScript string built-ins the front end uses: `\s` and `trim`, `startsWith`. */
module JsStr {
  import Strings

  /**
    The characters matched by the regular-expression class `\s` and removed by
    `String.prototype.trim`: ECMAScript white space and line terminators.
   */
  predicate IsSpace(c: char) {
    ('\t' <= c <= '\r') || c == ' ' || c == '\U{a0}' || c == '\U{1680}'
    || ('\U{2000}' <= c <= '\U{200a}') || c == '\U{2028}' || c == '\U{2029}'
    || c == '\U{202f}' || c == '\U{205f}' || c == '\U{3000}' || c == '\U{feff}'
  }

  /** `s.trim()`: no longer than `s`, and neither starting nor ending with white space. */
  function Trim(s: string): (r: string)
    ensures |r| <= |s|
    ensures Strings.IsStripped(r, IsSpace)
  {
    Strings.Strip(s, IsSpace)
  }

  /**
    The length of the match of `^\s*` at the start of `s`: the leading
    white-space run, which stops at the first character that is not white space.
   */
  function LeadingSpaces(s: string): (n: nat)
    ensures n <= |s|
    ensures n < |s| ==> !IsSpace(s[n])
  {
    Strings.LeadCount(s, IsSpace)
  }

  /** `s.startsWith(c)` for a one-character string `c`. */
  predicate StartsWith(s: string, c: char) {
    |s| > 0 && s[0] == c
  }
}
