/**
 * The loop signal of the classifier: the number of matches that `re.findall` returns
 * for the for-loop pattern `for\s*\(.*;.*;.*\)` plus the number it returns for the
 * while-loop pattern `while\s*\(.*\)` (app.py, lines 18-25). Neither pattern uses
 * DOTALL, so `.` stops at a newline and `\s` may cross one.
 */
module LoopSignal {
  import opened Text

  datatype LoopKind = ForLoop | WhileLoop

  /** A match found by `re.findall`: the text `s[start..end]`. */
  datatype Span = Span(start: nat, end: nat)

  /** The literal prefix of each pattern. */
  function Keyword(k: LoopKind): string {
    match k
    case ForLoop => "for"
    case WhileLoop => "while"
  }

  /**
   * `s[i..e]` is SOME match of the pattern of `k` that starts at `i`, under any
   * choice the backtracking engine can make: the keyword, a whitespace run, `(` at `c`,
   * then on the same line (for `for`, two `;` and) a closing `)` as the last character.
   */
  ghost predicate MatchSpan(k: LoopKind, s: string, i: nat, e: nat) {
    i + |Keyword(k)| <= |s| && s[i..i + |Keyword(k)|] == Keyword(k)
    && exists c: nat :: MatchWith(k, s, i, e, c)
  }

  /** `s[i..e]` matches with its `(` at `c`. */
  ghost predicate MatchWith(k: LoopKind, s: string, i: nat, e: nat, c: nat) {
    i + |Keyword(k)| <= c && c + 1 < e <= |s| && AllSpace(s, i + |Keyword(k)|, c) && s[c] == '('
    && s[e - 1] == ')' && NoneOf(s, c + 1, e - 1, '\n')
    && (k == ForLoop ==> exists j1: nat, j2: nat :: c < j1 < j2 < e - 1 && s[j1] == ';' && s[j2] == ';')
  }

  /** Two semicolons occur in `s[lo..hi]`. */
  predicate TwoSemicolons(s: string, lo: nat, hi: nat)
    requires hi <= |s|
  {
    match FirstIndex(s, ';', lo, hi)
    case None => false
    case Some(j) => FirstIndex(s, ';', j + 1, hi).Some?
  }

  /** Any two semicolons in the range make `TwoSemicolons` hold. */
  lemma TwoSemicolonsFrom(s: string, lo: nat, hi: nat, j1: nat, j2: nat)
    requires lo <= j1 < j2 < hi <= |s| && s[j1] == ';' && s[j2] == ';'
    ensures TwoSemicolons(s, lo, hi)
  {
    var f := FirstIndex(s, ';', lo, hi);
    assert f.Some? && f.value <= j1;
    assert f.value + 1 <= j2 < hi && s[j2] == ';';
  }

  /** When `TwoSemicolons` holds, here are the two semicolons. */
  lemma TwoSemicolonsWitness(s: string, lo: nat, hi: nat) returns (j1: nat, j2: nat)
    requires hi <= |s| && TwoSemicolons(s, lo, hi)
    ensures lo <= j1 < j2 < hi && s[j1] == ';' && s[j2] == ';'
  {
    j1 := FirstIndex(s, ';', lo, hi).value;
    j2 := FirstIndex(s, ';', j1 + 1, hi).value;
  }

  /**
   * The match that the regex engine reports when it tries the pattern at `i`.
   * Greedy `.*` makes it end after the LAST `)` of the line that holds the `(`.
   * The result is the longest possible match at `i`, and `None` when there is none.
   */
  function MatchEnd(k: LoopKind, s: string, i: nat): (r: Option<nat>)
    ensures r.Some? ==> i < r.value <= |s| && MatchSpan(k, s, i, r.value)
    ensures r.Some? ==> forall e: nat :: MatchSpan(k, s, i, e) ==> e <= r.value
    ensures r.None? ==> forall e: nat :: !MatchSpan(k, s, i, e)
  {
    if Shape(k, s, i) then
      ShapeMatches(k, s, i);
      Some(LastClose(s, Paren(k, s, i)).value + 1)
    else
      NoShapeNoMatch(k, s, i);
      None
  }

  /**
   * The engine's attempt at `i` succeeds: the keyword is there, the whitespace run after
   * it ends at a `(`, the line of that `(` holds a later `)`, and for `for` two semicolons
   * lie between the `(` and the last such `)`.
   */
  predicate Shape(k: LoopKind, s: string, i: nat) {
    i + |Keyword(k)| <= |s| && s[i..i + |Keyword(k)|] == Keyword(k)
    && Paren(k, s, i) < |s| && s[Paren(k, s, i)] == '('
    && LastClose(s, Paren(k, s, i)).Some?
    && (k == WhileLoop || TwoSemicolons(s, Paren(k, s, i) + 1, LastClose(s, Paren(k, s, i)).value))
  }

  /** When the attempt succeeds, ending after the last `)` of the line is the longest match. */
  lemma ShapeMatches(k: LoopKind, s: string, i: nat)
    requires Shape(k, s, i)
    ensures i < LastClose(s, Paren(k, s, i)).value + 1 <= |s|
    ensures MatchSpan(k, s, i, LastClose(s, Paren(k, s, i)).value + 1)
    ensures forall e: nat :: MatchSpan(k, s, i, e) ==> e <= LastClose(s, Paren(k, s, i)).value + 1
  {
    MatchAtLastClose(k, s, i, Paren(k, s, i), LastClose(s, Paren(k, s, i)).value);
    MatchShape(k, s, i);
  }

  /** When the attempt fails, no match starts at `i`. */
  lemma NoShapeNoMatch(k: LoopKind, s: string, i: nat)
    requires !Shape(k, s, i)
    ensures forall e: nat :: !MatchSpan(k, s, i, e)
  {
    MatchShape(k, s, i);
  }

  /**
   * The engine's match at `i` from its parts: the keyword, whitespace, the `(` at `c`, the
   * last `)` of that line at `j` (the line ends at `l`), and for `for` two semicolons
   * between them.
   */
  lemma MatchEndAt(k: LoopKind, s: string, i: nat, c: nat, j: nat, l: nat, j1: nat, j2: nat)
    requires i + |Keyword(k)| <= c < j < l <= |s| && s[i..i + |Keyword(k)|] == Keyword(k)
    requires AllSpace(s, i + |Keyword(k)|, c) && s[c] == '(' && s[j] == ')'
    requires NoneOf(s, c + 1, l, '\n') && (l < |s| ==> s[l] == '\n') && NoneOf(s, j + 1, l, ')')
    requires k == ForLoop ==> c < j1 < j2 < j && s[j1] == ';' && s[j2] == ';'
    ensures MatchEnd(k, s, i) == Some(j + 1)
  {
    SkipSpaceUnique(s, i + |Keyword(k)|, c);
    assert Paren(k, s, i) == c;
    LineEndUnique(s, c + 1, l);
    LastIndexUnique(s, ')', c + 1, l, j);
    assert LastClose(s, c) == Some(j);
    if k == ForLoop {
      TwoSemicolonsFrom(s, c + 1, j, j1, j2);
    }
    MatchEndOf(k, s, i, c, j);
  }

  /** `MatchEnd` in terms of the `(` it finds and the last `)` of that line. */
  lemma MatchEndOf(k: LoopKind, s: string, i: nat, c: nat, j: nat)
    requires i + |Keyword(k)| <= |s| && s[i..i + |Keyword(k)|] == Keyword(k)
    requires Paren(k, s, i) == c && c < |s| && s[c] == '(' && LastClose(s, c) == Some(j)
    requires k == WhileLoop || TwoSemicolons(s, c + 1, j)
    ensures MatchEnd(k, s, i) == Some(j + 1)
  {
  }

  /**
   * Every match at `i` has its `(` where the whitespace run after the keyword ends,
   * its `)` no later than the last `)` of that line, and (for `for`) two semicolons
   * before that last `)`.
   */
  lemma MatchShape(k: LoopKind, s: string, i: nat)
    ensures forall e: nat :: MatchSpan(k, s, i, e) ==> MatchShaped(k, s, i, e)
  {
    forall e: nat | MatchSpan(k, s, i, e) ensures MatchShaped(k, s, i, e) {
      MatchShapeAt(k, s, i, e);
    }
  }

  /** The facts `MatchShape` gives about one match `s[i..e]`. */
  ghost predicate MatchShaped(k: LoopKind, s: string, i: nat, e: nat) {
    Shape(k, s, i) && e <= LastClose(s, Paren(k, s, i)).value + 1
  }

  /** Where `\s*` after the keyword stops: the only place the `(` can be. */
  function Paren(k: LoopKind, s: string, i: nat): nat
    requires i + |Keyword(k)| <= |s|
  {
    SkipSpace(s, i + |Keyword(k)|)
  }

  /** The last `)` on the line of the `(` at `c`. */
  function LastClose(s: string, c: nat): Option<nat>
    requires c < |s|
  {
    LastIndex(s, ')', c + 1, LineEnd(s, c + 1))
  }

  lemma MatchShapeAt(k: LoopKind, s: string, i: nat, e: nat)
    requires MatchSpan(k, s, i, e)
    ensures MatchShaped(k, s, i, e)
  {
    var c := MatchParen(k, s, i, e);
    var last := CloseBeforeLastOnLine(s, c, e);
    if k == ForLoop {
      var j1: nat, j2: nat :| c < j1 < j2 < e - 1 && s[j1] == ';' && s[j2] == ';';
      TwoSemicolonsFrom(s, c + 1, last, j1, j2);
    }
  }

  /** The `(` of a match sits where the whitespace run after the keyword ends. */
  lemma MatchParen(k: LoopKind, s: string, i: nat, e: nat) returns (c: nat)
    requires MatchSpan(k, s, i, e)
    ensures i + |Keyword(k)| <= c && c == Paren(k, s, i)
    ensures c + 1 < e <= |s| && s[c] == '(' && s[e - 1] == ')' && NoneOf(s, c + 1, e - 1, '\n')
    ensures k == ForLoop ==>
              exists j1: nat, j2: nat :: c < j1 < j2 < e - 1 && s[j1] == ';' && s[j2] == ';'
  {
    c :| MatchWith(k, s, i, e, c);
    SkipSpaceUnique(s, i + |Keyword(k)|, c);
  }

  /** A `)` on the line of the `(` at `c` is at or before the last `)` of that line. */
  lemma CloseBeforeLastOnLine(s: string, c: nat, e: nat) returns (last: nat)
    requires c + 1 < e <= |s| && s[e - 1] == ')' && NoneOf(s, c + 1, e - 1, '\n')
    ensures c < |s| && LastClose(s, c) == Some(last) && e - 1 <= last
  {
    var line := LineEnd(s, c + 1);
    if line < |s| {
      assert s[line] == '\n';
    }
    assert c + 1 <= e - 1 < line;
    last := LastIndex(s, ')', c + 1, line).value;
  }

  /** Ending after the last `)` of the line is a match when the semicolons are there. */
  lemma MatchAtLastClose(k: LoopKind, s: string, i: nat, c: nat, j: nat)
    requires i + |Keyword(k)| <= |s| && s[i..i + |Keyword(k)|] == Keyword(k)
    requires c == Paren(k, s, i) && c < |s| && s[c] == '('
    requires LastClose(s, c) == Some(j)
    requires k == WhileLoop || TwoSemicolons(s, c + 1, j)
    ensures MatchSpan(k, s, i, j + 1)
  {
    assert NoneOf(s, c + 1, j, '\n');
    if k == ForLoop {
      var j1, j2 := TwoSemicolonsWitness(s, c + 1, j);
    }
    assert MatchWith(k, s, i, j + 1, c);
  }

  /** No match of the pattern of `k` starts in `[lo, hi)`. */
  ghost predicate NoMatchIn(k: LoopKind, s: string, lo: nat, hi: nat) {
    forall p: nat :: lo <= p < hi ==> MatchEnd(k, s, p).None?
  }

  /** Where the gap after the `j`-th reported match ends: the next match, or the end of the text. */
  function GapEnd(s: string, r: seq<Span>, j: nat): nat
    requires j < |r|
  {
    if j + 1 < |r| then r[j + 1].start else |s|
  }

  /** Where the stretch before the first reported match ends: that match, or the end of the text. */
  function FirstStart(s: string, r: seq<Span>): nat {
    if r == [] then |s| else r[0].start
  }

  /** Each span is the engine's match at its start. */
  ghost predicate AllMatches(k: LoopKind, s: string, r: seq<Span>) {
    forall j :: 0 <= j < |r| ==> MatchEnd(k, s, r[j].start) == Some(r[j].end)
  }

  /** The spans are in order and do not overlap. */
  ghost predicate Ordered(r: seq<Span>) {
    forall j :: 0 <= j < |r| - 1 ==> r[j].end <= r[j + 1].start
  }

  /** No match starts between the end of a span and the start of the next one (or the end). */
  ghost predicate GapsEmpty(k: LoopKind, s: string, r: seq<Span>) {
    forall j :: 0 <= j < |r| ==> NoMatchIn(k, s, r[j].end, GapEnd(s, r, j))
  }

  /**
   * What `re.findall` reports from position `i`: leftmost-first, non-overlapping matches.
   * Each span is the engine's match at its start, the spans are in order and do not
   * overlap, and no match starts before the first span, between two spans or after the last.
   */
  ghost predicate Leftmost(k: LoopKind, s: string, i: nat, r: seq<Span>) {
    AllMatches(k, s, r) && Ordered(r) && GapsEmpty(k, s, r)
    && NoMatchIn(k, s, i, FirstStart(s, r)) && (r != [] ==> i <= r[0].start)
  }

  /** `re.findall` from position `i`: the matches it reports, in order, at most one per character. */
  function FindAllFrom(k: LoopKind, s: string, i: nat): (r: seq<Span>)
    ensures r == [] || i + |r| <= |s|
    decreases |s| - i
  {
    if |s| <= i then []
    else
      match MatchEnd(k, s, i)
      case Some(e) => [Span(i, e)] + FindAllFrom(k, s, e)
      case None => FindAllFrom(k, s, i + 1)
  }

  /** The scan that `FindAllFrom` performs reports exactly the leftmost-first matches. */
  lemma {:induction false} FindAllIsLeftmost(k: LoopKind, s: string, i: nat)
    ensures Leftmost(k, s, i, FindAllFrom(k, s, i))
    decreases |s| - i
  {
    if i < |s| {
      var m := MatchEnd(k, s, i);
      if m.Some? {
        FindAllIsLeftmost(k, s, m.value);
        ScanAfterMatch(k, s, i, m.value);
      } else {
        FindAllIsLeftmost(k, s, i + 1);
        ScanPastPosition(k, s, i);
      }
    }
  }

  /** The scan's step where a match starts at `i`. */
  lemma ScanAfterMatch(k: LoopKind, s: string, i: nat, e: nat)
    requires i < |s| && MatchEnd(k, s, i) == Some(e) && Leftmost(k, s, e, FindAllFrom(k, s, e))
    ensures Leftmost(k, s, i, FindAllFrom(k, s, i))
  {
    assert FindAllFrom(k, s, i) == [Span(i, e)] + FindAllFrom(k, s, e);
    PrependLeftmost(k, s, i, e, FindAllFrom(k, s, e));
  }

  /** The scan's step where no match starts at `i`. */
  lemma ScanPastPosition(k: LoopKind, s: string, i: nat)
    requires i < |s| && MatchEnd(k, s, i).None? && Leftmost(k, s, i + 1, FindAllFrom(k, s, i + 1))
    ensures Leftmost(k, s, i, FindAllFrom(k, s, i))
  {
    assert FindAllFrom(k, s, i) == FindAllFrom(k, s, i + 1);
    ExtendLeftmost(k, s, i, FindAllFrom(k, s, i + 1));
  }

  /** A position where no match starts can be added in front of the scanned stretch. */
  lemma ExtendLeftmost(k: LoopKind, s: string, i: nat, r: seq<Span>)
    requires MatchEnd(k, s, i).None? && Leftmost(k, s, i + 1, r)
    ensures Leftmost(k, s, i, r)
  {
    NoMatchExtend(k, s, i, FirstStart(s, r));
    if r != [] {
      assert i != r[0].start;
    }
  }

  lemma NoMatchExtend(k: LoopKind, s: string, i: nat, hi: nat)
    requires MatchEnd(k, s, i).None? && NoMatchIn(k, s, i + 1, hi)
    ensures NoMatchIn(k, s, i, hi)
  {
  }

  /** A match at `i` followed by the leftmost matches from its end are the leftmost matches from `i`. */
  lemma PrependLeftmost(k: LoopKind, s: string, i: nat, e: nat, rest: seq<Span>)
    requires MatchEnd(k, s, i) == Some(e) && Leftmost(k, s, e, rest)
    ensures Leftmost(k, s, i, [Span(i, e)] + rest)
  {
    PrependAllMatches(k, s, i, e, rest);
    PrependOrdered(i, e, rest);
    PrependGapsEmpty(k, s, i, e, rest);
  }

  lemma PrependAllMatches(k: LoopKind, s: string, i: nat, e: nat, rest: seq<Span>)
    requires MatchEnd(k, s, i) == Some(e) && AllMatches(k, s, rest)
    ensures AllMatches(k, s, [Span(i, e)] + rest)
  {
    var r := [Span(i, e)] + rest;
    forall j | 0 <= j < |r|
      ensures MatchEnd(k, s, r[j].start) == Some(r[j].end)
    {
      if j > 0 {
        assert r[j] == rest[j - 1];
      }
    }
  }

  lemma PrependOrdered(i: nat, e: nat, rest: seq<Span>)
    requires Ordered(rest) && (rest != [] ==> e <= rest[0].start)
    ensures Ordered([Span(i, e)] + rest)
  {
    var r := [Span(i, e)] + rest;
    forall j | 0 <= j < |r| - 1
      ensures r[j].end <= r[j + 1].start
    {
      if j > 0 {
        assert r[j] == rest[j - 1] && r[j + 1] == rest[j];
      }
    }
  }

  lemma PrependGapsEmpty(k: LoopKind, s: string, i: nat, e: nat, rest: seq<Span>)
    requires GapsEmpty(k, s, rest) && NoMatchIn(k, s, e, FirstStart(s, rest))
    ensures GapsEmpty(k, s, [Span(i, e)] + rest)
  {
    var r := [Span(i, e)] + rest;
    forall j | 0 <= j < |r|
      ensures NoMatchIn(k, s, r[j].end, GapEnd(s, r, j))
    {
      if j > 0 {
        assert r[j] == rest[j - 1] && GapEnd(s, r, j) == GapEnd(s, rest, j - 1);
      } else {
        assert GapEnd(s, r, 0) == FirstStart(s, rest);
      }
    }
  }

  /** No match can start where the keyword's first letter is absent, so the scan skips such a stretch. */
  lemma {:induction false} FindAllSkips(k: LoopKind, s: string, i: nat, j: nat)
    requires i <= j <= |s| && NoneOf(s, i, j, Keyword(k)[0])
    ensures FindAllFrom(k, s, i) == FindAllFrom(k, s, j)
    decreases j - i
  {
    if i < j {
      if i + |Keyword(k)| <= |s| {
        assert s[i..i + |Keyword(k)|][0] == s[i];
      }
      FindAllSkips(k, s, i + 1, j);
    }
  }

  /** `re.findall(pattern, s)` for the pattern of `k`: the leftmost-first matches of the whole text. */
  function FindAll(k: LoopKind, s: string): (r: seq<Span>)
    ensures Leftmost(k, s, 0, r)
  {
    FindAllIsLeftmost(k, s, 0);
    FindAllFrom(k, s, 0)
  }

  /**
   * `loop_count`: for-loop matches plus while-loop matches (app.py, line 25). It is zero
   * exactly when neither pattern matches anywhere, and at most two per character.
   */
  function CountLoops(s: string): (r: nat)
    ensures r == 0 <==>
              forall p: nat, e: nat :: !MatchSpan(ForLoop, s, p, e) && !MatchSpan(WhileLoop, s, p, e)
    ensures r <= 2 * |s|
  {
    NoLoopsIffNoMatch(s);
    |FindAll(ForLoop, s)| + |FindAll(WhileLoop, s)|
  }

  /** `findall` reports nothing for either pattern exactly when neither matches anywhere. */
  lemma NoLoopsIffNoMatch(s: string)
    ensures FindAll(ForLoop, s) == [] && FindAll(WhileLoop, s) == [] <==>
              forall p: nat, e: nat :: !MatchSpan(ForLoop, s, p, e) && !MatchSpan(WhileLoop, s, p, e)
  {
    if FindAll(ForLoop, s) != [] || FindAll(WhileLoop, s) != [] {
      var k := if |FindAll(ForLoop, s)| != 0 then ForLoop else WhileLoop;
      var sp := FindAll(k, s)[0];
      assert MatchSpan(k, s, sp.start, sp.end);
    } else {
      forall p: nat, e: nat ensures !MatchSpan(ForLoop, s, p, e) && !MatchSpan(WhileLoop, s, p, e) {
        if p < |s| {
          assert MatchEnd(ForLoop, s, p).None? && MatchEnd(WhileLoop, s, p).None?;
        }
      }
    }
  }
}
