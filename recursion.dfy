/**
 * The recursion signal of the classifier: whether `re.search` finds the pattern
 * `\b(\w+)\s*\(.*\)\s*\{[^}]*\b\1\s*\(.*\)` with DOTALL (app.py, lines 22 and 26).
 * Read as: a name and `(`, anything, `)` then `{`, a stretch without `}`, the same
 * name at a word boundary, `(`, anything, `)`. With DOTALL `.` also crosses newlines.
 */
module RecursionSignal {
  import opened Text

  /** `\b(\w+)\s*\(`: the name `s[a..b]` and the `(` at `c`. */
  ghost predicate Header(s: string, a: nat, b: nat, c: nat) {
    a < b <= c < |s| && BoundaryBefore(s, a) && AllWord(s, a, b) && AllSpace(s, b, c) && s[c] == '('
  }

  /** `.*\)\s*\{` after the `(` at `c`: the `)` at `d` and the `{` at `e`. */
  ghost predicate BodyOpen(s: string, c: nat, d: nat, e: nat) {
    c < d < e < |s| && s[d] == ')' && AllSpace(s, d + 1, e) && s[e] == '{'
  }

  /** `\b\1\s*\(.*\)`: the name again at `f`, its `(` at `g` and some later `)` at `h`. */
  ghost predicate CallSpan(s: string, name: string, f: nat, g: nat, h: nat) {
    f + |name| <= g < h < |s| && BoundaryBefore(s, f) && s[f..f + |name|] == name
    && AllSpace(s, f + |name|, g) && s[g] == '(' && s[h] == ')'
  }

  /**
   * The positions of one match: the name `s[a..b]`, the `(` at `c`, the `)` at `d`, the `{`
   * at `e`, the repeated name at `f`, its `(` at `g` and the final `)` at `h`.
   */
  datatype Positions = Positions(a: nat, b: nat, c: nat, d: nat, e: nat, f: nat, g: nat, h: nat)

  /** One way for the whole pattern to match; `[^}]*` is the stretch `s[e + 1..f]`. */
  ghost predicate RecursionSpan(s: string, p: Positions) {
    Header(s, p.a, p.b, p.c) && BodyOpen(s, p.c, p.d, p.e) && p.e < p.f <= |s|
    && NoneOf(s, p.e + 1, p.f, '}') && CallSpan(s, s[p.a..p.b], p.f, p.g, p.h)
  }

  /** `re.search` succeeds: some choice of positions matches the pattern. */
  ghost predicate RecursionMatch(s: string) {
    exists p: Positions :: RecursionSpan(s, p)
  }

  /** The `(` at `g` is followed, somewhere later, by a `)`. */
  predicate OpensAndCloses(s: string, g: nat) {
    g < |s| && s[g] == '(' && FirstIndex(s, ')', g + 1, |s|).Some?
  }

  /** The name occurs again at `f`, at a word boundary, as a call. */
  predicate CallAt(s: string, name: string, f: nat) {
    f + |name| <= |s| && BoundaryBefore(s, f) && s[f..f + |name|] == name
    && OpensAndCloses(s, SkipSpace(s, f + |name|))
  }

  /** A call of `name` starts at or after `f`, before the next `}`. */
  function CallInBody(s: string, name: string, f: nat): bool
    decreases |s| - f
  {
    if |s| <= f then false
    else CallAt(s, name, f) || (s[f] != '}' && CallInBody(s, name, f + 1))
  }

  /** The `{` at `e` opens a body in which `name` is called. */
  predicate BraceAt(s: string, name: string, e: nat) {
    e < |s| && s[e] == '{' && CallInBody(s, name, e + 1)
  }

  /** The `)` at `x` is followed by whitespace and a body that calls `name`. */
  predicate CloseAt(s: string, name: string, x: nat) {
    x < |s| && s[x] == ')' && BraceAt(s, name, SkipSpace(s, x + 1))
  }

  /** Some `)` at or after `d` closes the header of a body that calls `name`. */
  function BodyFrom(s: string, name: string, d: nat): bool
    decreases |s| - d
  {
    if |s| <= d then false
    else CloseAt(s, name, d) || BodyFrom(s, name, d + 1)
  }

  /** After the name `s[a..b]`, whitespace and a `(` at `c` start the rest of the pattern. */
  predicate ParenAt(s: string, name: string, c: nat) {
    c < |s| && s[c] == '(' && BodyFrom(s, name, c + 1)
  }

  /** The pattern matches with the name starting at `a`. */
  predicate HeaderAt(s: string, a: nat) {
    a < |s| && BoundaryBefore(s, a) && IsWordChar(s[a])
    && ParenAt(s, s[a..WordEnd(s, a)], SkipSpace(s, WordEnd(s, a)))
  }

  /** The pattern matches with the name starting at or after `a`. */
  function RecursiveFrom(s: string, a: nat): bool
    decreases |s| - a
  {
    if |s| <= a then false
    else HeaderAt(s, a) || RecursiveFrom(s, a + 1)
  }

  /** `is_recursive` (app.py, line 26): true exactly when `re.search` with DOTALL finds the pattern. */
  function Recursive(s: string): (r: bool)
    ensures r <==> RecursionMatch(s)
  {
    RecursiveIsRegexMatch(s);
    RecursiveFrom(s, 0)
  }

  /** A call that `CallInBody` reports, before the next `}`. */
  lemma {:induction false} CallInBodyFound(s: string, name: string, f: nat) returns (x: nat)
    requires CallInBody(s, name, f)
    ensures f <= x < |s| && NoneOf(s, f, x, '}') && CallAt(s, name, x)
    decreases |s| - f
  {
    if CallAt(s, name, f) {
      x := f;
    } else {
      x := CallInBodyFound(s, name, f + 1);
    }
  }

  /** A call before the next `}` is reported by `CallInBody`. */
  lemma {:induction false} CallInBodyComplete(s: string, name: string, f: nat, x: nat)
    requires f <= x < |s| && NoneOf(s, f, x, '}') && CallAt(s, name, x)
    ensures CallInBody(s, name, f)
    decreases x - f
  {
    if x > f {
      CallInBodyComplete(s, name, f + 1, x);
    }
  }

  /** The closing `)` that `BodyFrom` reports. */
  lemma {:induction false} BodyFromFound(s: string, name: string, d: nat) returns (x: nat)
    requires BodyFrom(s, name, d)
    ensures d <= x < |s| && CloseAt(s, name, x)
    decreases |s| - d
  {
    if CloseAt(s, name, d) {
      x := d;
    } else {
      x := BodyFromFound(s, name, d + 1);
    }
  }

  /** Any suitable closing `)` at or after `d` is found by `BodyFrom`. */
  lemma {:induction false} BodyFromComplete(s: string, name: string, d: nat, x: nat)
    requires d <= x < |s| && CloseAt(s, name, x)
    ensures BodyFrom(s, name, d)
    decreases x - d
  {
    if x > d {
      BodyFromComplete(s, name, d + 1, x);
    }
  }

  /** The name position that `RecursiveFrom` reports. */
  lemma {:induction false} RecursiveFromFound(s: string, a: nat) returns (x: nat)
    requires RecursiveFrom(s, a)
    ensures a <= x < |s| && HeaderAt(s, x)
    decreases |s| - a
  {
    if HeaderAt(s, a) {
      x := a;
    } else {
      x := RecursiveFromFound(s, a + 1);
    }
  }

  /** Any name position at or after `a` where the pattern matches is found by `RecursiveFrom`. */
  lemma {:induction false} RecursiveFromComplete(s: string, a: nat, x: nat)
    requires a <= x < |s| && HeaderAt(s, x)
    ensures RecursiveFrom(s, a)
    decreases x - a
  {
    if x > a {
      RecursiveFromComplete(s, a + 1, x);
    }
  }

  /** A whitespace character or `(` is never a word character. */
  lemma SeparatorNotWord(ch: char)
    requires IsSpace(ch) || ch == '('
    ensures !IsWordChar(ch)
  {
  }

  /** The scan agrees with the regex: it succeeds exactly when some match exists. */
  lemma RecursiveIsRegexMatch(s: string)
    ensures RecursiveFrom(s, 0) <==> RecursionMatch(s)
  {
    if RecursiveFrom(s, 0) {
      ScanFindsMatch(s);
    }
    if RecursionMatch(s) {
      MatchIsFound(s);
    }
  }

  /** What the scan finds is a match of the pattern. */
  lemma ScanFindsMatch(s: string)
    requires RecursiveFrom(s, 0)
    ensures RecursionMatch(s)
  {
    var a := RecursiveFromFound(s, 0);
    var b, c := HeaderOfScan(s, a);
    var d, e, f, g, h := BodyOfScan(s, s[a..b], c);
    SpanIsMatch(s, a, b, c, d, e, f, g, h);
  }

  /** The body that `BodyFrom` finds after the `(` at `c`, and the call in it. */
  lemma BodyOfScan(s: string, name: string, c: nat) returns (d: nat, e: nat, f: nat, g: nat, h: nat)
    requires c < |s| && BodyFrom(s, name, c + 1)
    ensures BodyOpen(s, c, d, e) && e < f <= |s| && NoneOf(s, e + 1, f, '}')
    ensures CallSpan(s, name, f, g, h)
  {
    d := BodyFromFound(s, name, c + 1);
    e := BodyOpenOfScan(s, name, c, d);
    f, g, h := CallOfScan(s, name, e);
  }

  /** The call that `CallInBody` finds in the body opened at `e`. */
  lemma CallOfScan(s: string, name: string, e: nat) returns (f: nat, g: nat, h: nat)
    requires CallInBody(s, name, e + 1)
    ensures e < f <= |s| && NoneOf(s, e + 1, f, '}') && CallSpan(s, name, f, g, h)
  {
    f := CallInBodyFound(s, name, e + 1);
    g, h := CallSpanOfScan(s, name, f);
  }

  /** The name and `(` that `HeaderAt` looks at form a header. */
  lemma HeaderOfScan(s: string, a: nat) returns (b: nat, c: nat)
    requires HeaderAt(s, a)
    ensures Header(s, a, b, c) && BodyFrom(s, s[a..b], c + 1)
  {
    b := WordEnd(s, a);
    c := SkipSpace(s, b);
  }

  /** The `)` that `CloseAt` accepts is followed by the `{` of a body. */
  lemma BodyOpenOfScan(s: string, name: string, c: nat, d: nat) returns (e: nat)
    requires c < d && CloseAt(s, name, d)
    ensures BodyOpen(s, c, d, e) && CallInBody(s, name, e + 1)
  {
    e := SkipSpace(s, d + 1);
  }

  /** The call that `CallAt` accepts spans a `(` and a later `)`. */
  lemma CallSpanOfScan(s: string, name: string, f: nat) returns (g: nat, h: nat)
    requires CallAt(s, name, f)
    ensures CallSpan(s, name, f, g, h)
  {
    g := SkipSpace(s, f + |name|);
    h := FirstIndex(s, ')', g + 1, |s|).value;
  }

  /** The parts of one match make a match of the whole pattern. */
  lemma SpanIsMatch(s: string, a: nat, b: nat, c: nat, d: nat, e: nat, f: nat, g: nat, h: nat)
    requires Header(s, a, b, c) && BodyOpen(s, c, d, e) && e < f <= |s| && NoneOf(s, e + 1, f, '}')
    requires CallSpan(s, s[a..b], f, g, h)
    ensures RecursionMatch(s)
  {
    assert RecursionSpan(s, Positions(a, b, c, d, e, f, g, h));
  }

  /** Any match of the pattern is found by the scan. */
  lemma MatchIsFound(s: string)
    requires RecursionMatch(s)
    ensures RecursiveFrom(s, 0)
  {
    var p: Positions :| RecursionSpan(s, p);
    SpanIsFound(s, p.a, p.b, p.c, p.d, p.e, p.f, p.g, p.h);
  }

  /** The scan finds the match given by these positions. */
  lemma SpanIsFound(s: string, a: nat, b: nat, c: nat, d: nat, e: nat, f: nat, g: nat, h: nat)
    requires Header(s, a, b, c) && BodyOpen(s, c, d, e) && e < f <= |s| && NoneOf(s, e + 1, f, '}')
    requires CallSpan(s, s[a..b], f, g, h)
    ensures RecursiveFrom(s, 0)
  {
    CallOfSpan(s, s[a..b], f, g, h);
    BodyOfSpan(s, s[a..b], c, d, e, f);
    HeaderOfSpan(s, a, b, c);
    RecursiveFromComplete(s, 0, a);
  }

  /** The body that opens at `e` and calls the name at `f` is found by `BodyFrom`. */
  lemma BodyOfSpan(s: string, name: string, c: nat, d: nat, e: nat, f: nat)
    requires BodyOpen(s, c, d, e) && e < f < |s| && NoneOf(s, e + 1, f, '}') && CallAt(s, name, f)
    ensures BodyFrom(s, name, c + 1)
  {
    CallInBodyComplete(s, name, e + 1, f);
    CloseOfBodyOpen(s, name, c, d, e);
    BodyFromComplete(s, name, c + 1, d);
  }

  lemma CallOfSpan(s: string, name: string, f: nat, g: nat, h: nat)
    requires CallSpan(s, name, f, g, h)
    ensures CallAt(s, name, f)
  {
    SkipSpaceUnique(s, f + |name|, g);
    assert FirstIndex(s, ')', g + 1, |s|).Some?;
  }

  lemma CloseOfBodyOpen(s: string, name: string, c: nat, d: nat, e: nat)
    requires BodyOpen(s, c, d, e) && CallInBody(s, name, e + 1)
    ensures CloseAt(s, name, d)
  {
    SkipSpaceUnique(s, d + 1, e);
  }

  lemma HeaderOfSpan(s: string, a: nat, b: nat, c: nat)
    requires Header(s, a, b, c) && BodyFrom(s, s[a..b], c + 1)
    ensures HeaderAt(s, a)
  {
    SeparatorNotWord(s[b]);
    WordEndUnique(s, a, b);
    SkipSpaceUnique(s, b, c);
  }

  /** A `(` occurs at or after `x`, before the next `}`. */
  function ParenBeforeClose(s: string, x: nat): bool
    decreases |s| - x
  {
    if |s| <= x then false
    else s[x] == '(' || (s[x] != '}' && ParenBeforeClose(s, x + 1))
  }

  /** Some `{` at or after `e` is followed by a `(` before the next `}`. */
  function BraceThenParenFrom(s: string, e: nat): bool
    decreases |s| - e
  {
    if |s| <= e then false
    else (s[e] == '{' && ParenBeforeClose(s, e + 1)) || BraceThenParenFrom(s, e + 1)
  }

  /** A `(` reached before any `}` is seen by `ParenBeforeClose`. */
  lemma {:induction false} ParenBeforeCloseComplete(s: string, x: nat, g: nat)
    requires x <= g < |s| && s[g] == '(' && NoneOf(s, x, g, '}')
    ensures ParenBeforeClose(s, x)
    decreases g - x
  {
    if x < g {
      ParenBeforeCloseComplete(s, x + 1, g);
    }
  }

  /** A `}` reached before any `(` makes `ParenBeforeClose` fail. */
  lemma {:induction false} CloseBeforeParen(s: string, x: nat, k: nat)
    requires x <= k < |s| && s[k] == '}' && NoneOf(s, x, k, '(')
    ensures !ParenBeforeClose(s, x)
    decreases k - x
  {
    if x < k {
      CloseBeforeParen(s, x + 1, k);
    }
  }

  /** A suitable `{` at or after `y` is seen by `BraceThenParenFrom`. */
  lemma {:induction false} BraceThenParenComplete(s: string, y: nat, e: nat)
    requires y <= e < |s| && s[e] == '{' && ParenBeforeClose(s, e + 1)
    ensures BraceThenParenFrom(s, y)
    decreases e - y
  {
    if y < e {
      BraceThenParenComplete(s, y + 1, e);
    }
  }

  /** A stretch without `{` does not change what `BraceThenParenFrom` reports. */
  lemma {:induction false} BraceThenParenSkips(s: string, y: nat, z: nat)
    requires y <= z <= |s| && NoneOf(s, y, z, '{')
    ensures BraceThenParenFrom(s, y) == BraceThenParenFrom(s, z)
    decreases z - y
  {
    if y < z {
      BraceThenParenSkips(s, y + 1, z);
    }
  }

  /**
   * A necessary condition: every match has a `(` inside a brace body before that body's
   * first `}` (the `(` after the repeated name), so text without one is never recursive.
   */
  lemma RecursionNeedsParenInBody(s: string)
    ensures Recursive(s) ==> BraceThenParenFrom(s, 0)
  {
    RecursiveIsRegexMatch(s);
    if Recursive(s) {
      var p: Positions :| RecursionSpan(s, p);
      SpanHasParenInBody(s, p.a, p.b, p.e, p.f, p.g);
    }
  }

  /** The repeated name and the whitespace after it contain no `}`. */
  lemma SpanHasParenInBody(s: string, a: nat, b: nat, e: nat, f: nat, g: nat)
    requires a < b <= |s| && AllWord(s, a, b) && e < f && f + (b - a) <= g < |s|
    requires s[e] == '{' && NoneOf(s, e + 1, f, '}') && s[f..f + (b - a)] == s[a..b]
    requires AllSpace(s, f + (b - a), g) && s[g] == '('
    ensures BraceThenParenFrom(s, 0)
  {
    forall x | f <= x < f + (b - a)
      ensures s[x] != '}'
    {
      assert s[x] == s[f..f + (b - a)][x - f] == s[a + (x - f)];
      assert IsWordChar(s[a + (x - f)]);
    }
    forall x | f + (b - a) <= x < g
      ensures s[x] != '}'
    {
      assert IsSpace(s[x]);
    }
    assert NoneOf(s, e + 1, g, '}');
    ParenBeforeCloseComplete(s, e + 1, g);
    BraceThenParenComplete(s, 0, e);
  }
}
