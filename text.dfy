/**
 * Character classes and small scanning helpers shared by the three detectors of the
 * classifier and by the request handler's blank-input check.
 *
 * Python's `re` module applies its classes to `str` patterns with Unicode semantics.
 * `IsSpace` is the complete list of characters that Python treats as whitespace
 * (`\s` in a pattern, and what `str.strip()` removes). `IsWordChar` is `\w`
 * restricted to ASCII letters, digits and the underscore.
 */
module Text {

  datatype Option<T> = None | Some(value: T)

  /**
   * Python's whitespace: `\s` in a `str` pattern and the characters `str.strip()` removes.
   * It includes the ASCII blank, tab, newline and carriage return, and no word character.
   */
  predicate IsSpace(c: char)
    ensures c == ' ' || c == '\t' || c == '\n' || c == '\r' ==> IsSpace(c)
    ensures IsSpace(c) ==> !IsWordChar(c)
  {
    var n := c as int;
    (9 <= n <= 13) || (28 <= n <= 32) || n == 0x85 || n == 0xA0 || n == 0x1680
    || (0x2000 <= n <= 0x200A) || n == 0x2028 || n == 0x2029 || n == 0x202F
    || n == 0x205F || n == 0x3000
  }

  /** `\w`: letters, digits and underscore (ASCII only in this model). */
  predicate IsWordChar(c: char) {
    ('a' <= c <= 'z') || ('A' <= c <= 'Z') || ('0' <= c <= '9') || c == '_'
  }

  /** Every character of `s[lo..hi]` is whitespace. */
  predicate AllSpace(s: string, lo: nat, hi: nat)
    requires hi <= |s|
  {
    forall x {:trigger IsSpace(s[x])} :: lo <= x < hi ==> IsSpace(s[x])
  }

  /** Every character of `s[lo..hi]` is a word character. */
  predicate AllWord(s: string, lo: nat, hi: nat)
    requires hi <= |s|
  {
    forall x {:trigger IsWordChar(s[x])} :: lo <= x < hi ==> IsWordChar(s[x])
  }

  /** `ch` does not occur in `s[lo..hi]`. */
  predicate NoneOf(s: string, lo: nat, hi: nat, ch: char)
    requires hi <= |s|
  {
    forall x :: lo <= x < hi ==> s[x] != ch
  }

  /** A regex word boundary `\b` just before a word character at `p`. */
  predicate BoundaryBefore(s: string, p: nat)
    requires p <= |s|
  {
    p == 0 || !IsWordChar(s[p - 1])
  }

  /** What `\s*` consumes from `i`: the end of the whitespace run starting there. */
  function SkipSpace(s: string, i: nat): (r: nat)
    requires i <= |s|
    ensures i <= r <= |s| && AllSpace(s, i, r)
    ensures r < |s| ==> !IsSpace(s[r])
    decreases |s| - i
  {
    if i < |s| && IsSpace(s[i]) then SkipSpace(s, i + 1) else i
  }

  /** The end of the run of word characters starting at `i`. */
  function WordEnd(s: string, i: nat): (r: nat)
    requires i <= |s|
    ensures i <= r <= |s| && AllWord(s, i, r)
    ensures r < |s| ==> !IsWordChar(s[r])
    decreases |s| - i
  {
    if i < |s| && IsWordChar(s[i]) then WordEnd(s, i + 1) else i
  }

  /** The first index at or after `lo` and before `hi` that holds `ch`. */
  function FirstIndex(s: string, ch: char, lo: nat, hi: nat): (r: Option<nat>)
    requires hi <= |s|
    ensures r.Some? ==> lo <= r.value < hi && s[r.value] == ch && NoneOf(s, lo, r.value, ch)
    ensures r.None? ==> NoneOf(s, lo, hi, ch)
    decreases hi - lo
  {
    if hi <= lo then None
    else if s[lo] == ch then Some(lo)
    else FirstIndex(s, ch, lo + 1, hi)
  }

  /** The last index at or after `lo` and before `hi` that holds `ch`. */
  function LastIndex(s: string, ch: char, lo: nat, hi: nat): (r: Option<nat>)
    requires hi <= |s|
    ensures r.Some? ==> lo <= r.value < hi && s[r.value] == ch && NoneOf(s, r.value + 1, hi, ch)
    ensures r.None? ==> NoneOf(s, lo, hi, ch)
    decreases hi
  {
    if hi <= lo then None
    else if s[hi - 1] == ch then Some(hi - 1)
    else LastIndex(s, ch, lo, hi - 1)
  }

  /** The end of the line that contains index `i`: the next newline, or the end of the text. */
  function LineEnd(s: string, i: nat): (r: nat)
    requires i <= |s|
    ensures i <= r <= |s| && NoneOf(s, i, r, '\n')
    ensures r < |s| ==> s[r] == '\n'
  {
    match FirstIndex(s, '\n', i, |s|)
    case Some(x) => x
    case None => |s|
  }

  /** The whitespace run that `\s*` followed by a non-space at `c` consumes ends exactly at `c`. */
  lemma SkipSpaceUnique(s: string, i: nat, c: nat)
    requires i <= c < |s| && AllSpace(s, i, c) && !IsSpace(s[c])
    ensures SkipSpace(s, i) == c
  {
  }

  /** The word run ends exactly at the first non-word character. */
  lemma WordEndUnique(s: string, i: nat, b: nat)
    requires i <= b < |s| && AllWord(s, i, b) && !IsWordChar(s[b])
    ensures WordEnd(s, i) == b
  {
  }

  /** The first `ch` in `s[lo..hi]` is the one with no `ch` before it. */
  lemma FirstIndexUnique(s: string, ch: char, lo: nat, hi: nat, v: nat)
    requires lo <= v < hi <= |s| && s[v] == ch && NoneOf(s, lo, v, ch)
    ensures FirstIndex(s, ch, lo, hi) == Some(v)
  {
  }

  /** The last `ch` in `s[lo..hi]` is the one with no `ch` after it. */
  lemma LastIndexUnique(s: string, ch: char, lo: nat, hi: nat, v: nat)
    requires lo <= v < hi <= |s| && s[v] == ch && NoneOf(s, v + 1, hi, ch)
    ensures LastIndex(s, ch, lo, hi) == Some(v)
  {
  }

  /** The line from `i` ends at the first newline, or at the end of the text. */
  lemma LineEndUnique(s: string, i: nat, l: nat)
    requires i <= l <= |s| && NoneOf(s, i, l, '\n') && (l < |s| ==> s[l] == '\n')
    ensures LineEnd(s, i) == l
  {
  }
}
