/**
 * The HashMap signal of the classifier: whether `re.search` finds `\bHashMap<.*>`
 * (app.py, lines 23 and 27). Without DOTALL, `.` stops at a newline, so the `>` must
 * be on the same line as `HashMap<`.
 */
module HashMapSignal {
  import opened Text

  const Marker: string := "HashMap<"

  /** One way for the pattern to match: `HashMap<` at `p`, the `>` at `q`. */
  ghost predicate HashMapSpan(s: string, p: nat, q: nat) {
    p + |Marker| <= q < |s| && BoundaryBefore(s, p) && s[p..p + |Marker|] == Marker
    && s[q] == '>' && NoneOf(s, p + |Marker|, q, '\n')
  }

  /** The pattern matches starting at `p`. */
  predicate HashMapAt(s: string, p: nat) {
    p + |Marker| <= |s| && BoundaryBefore(s, p) && s[p..p + |Marker|] == Marker
    && FirstIndex(s, '>', p + |Marker|, LineEnd(s, p + |Marker|)).Some?
  }

  /** The pattern matches starting at or after `p`. */
  function HashMapFrom(s: string, p: nat): (r: bool)
    ensures r <==> exists x: nat :: p <= x < |s| && HashMapAt(s, x)
    decreases |s| - p
  {
    if |s| <= p then false
    else HashMapAt(s, p) || HashMapFrom(s, p + 1)
  }

  /** `uses_hashmap` (app.py, line 27): true exactly when `re.search` finds the pattern. */
  function UsesHashMap(s: string): (r: bool)
    ensures r <==> exists p: nat, q: nat :: HashMapSpan(s, p, q)
  {
    UsesHashMapIsRegexMatch(s);
    HashMapFrom(s, 0)
  }

  /** The scan agrees with the regex: it succeeds exactly when some match exists. */
  lemma UsesHashMapIsRegexMatch(s: string)
    ensures HashMapFrom(s, 0) <==> exists p: nat, q: nat :: HashMapSpan(s, p, q)
  {
    if HashMapFrom(s, 0) {
      var p, q := SpanOfScan(s);
    }
    if p: nat, q: nat :| HashMapSpan(s, p, q) {
      ScanOfSpan(s, p, q);
    }
  }

  /** The position the scan accepts, and the `>` after it on the same line, form a match. */
  lemma SpanOfScan(s: string) returns (p: nat, q: nat)
    requires HashMapFrom(s, 0)
    ensures HashMapSpan(s, p, q)
  {
    p :| p < |s| && HashMapAt(s, p);
    q := FirstIndex(s, '>', p + |Marker|, LineEnd(s, p + |Marker|)).value;
  }

  /** A match with `HashMap<` at `p` is accepted by the scan at `p`. */
  lemma ScanOfSpan(s: string, p: nat, q: nat)
    requires HashMapSpan(s, p, q)
    ensures HashMapAt(s, p)
  {
    var line := LineEnd(s, p + |Marker|);
    if line < |s| {
      assert s[line] == '\n';
    }
    assert q < line;
  }

  /** Text without the letter `H` never uses a HashMap. */
  lemma HashMapNeedsMarker(s: string)
    requires NoneOf(s, 0, |s|, 'H')
    ensures !UsesHashMap(s)
  {
    UsesHashMapIsRegexMatch(s);
    forall p: nat, q: nat
      ensures !HashMapSpan(s, p, q)
    {
      if p + |Marker| <= |s| {
        assert s[p..p + |Marker|][0] == s[p];
      }
    }
  }
}
