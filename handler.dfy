/**
 * The `/analyze` request handler (app.py, lines 78-87) from the `java_code` field onward:
 * blank code is rejected with status 400 before the classifier runs; otherwise the
 * reply holds the label text and the growth row that `plot_complexity` draws for it.
 */
module Handler {
  import opened Text
  import Classifier
  import Growth

  /** `str.lstrip()`: drop leading whitespace. */
  function StripLeft(s: string): (r: string)
    ensures |r| <= |s| && r == s[|s| - |r|..]
    ensures AllSpace(s, 0, |s| - |r|)
    ensures r == [] || !IsSpace(r[0])
  {
    if s != [] && IsSpace(s[0]) then
      var r := StripLeft(s[1..]);
      assert forall x :: 1 <= x < |s| - |r| ==> s[x] == s[1..][x - 1];
      r
    else s
  }

  /** `str.rstrip()`: drop trailing whitespace. */
  function StripRight(s: string): (r: string)
    ensures |r| <= |s| && r == s[..|r|]
    ensures AllSpace(s, |r|, |s|)
    ensures r == [] || !IsSpace(r[|r| - 1])
  {
    if s != [] && IsSpace(s[|s| - 1]) then
      var r := StripRight(s[..|s| - 1]);
      assert forall x :: |r| <= x < |s| - 1 ==> s[x] == s[..|s| - 1][x];
      r
    else s
  }

  /** `str.strip()`: what is left once whitespace is removed from both ends; nothing exactly for blank text. */
  function Strip(s: string): (r: string)
    ensures |r| <= |s|
    ensures r == [] <==> AllSpace(s, 0, |s|)
  {
    if StripRight(StripLeft(s)) == [] then
      SpaceInSuffix(s, |s| - |StripLeft(s)|, 0);
      StripRight(StripLeft(s))
    else
      assert !AllSpace(s, 0, |s|) by {
        assert !IsSpace(s[|s| - |StripLeft(s)|]);
      }
      StripRight(StripLeft(s))
  }

  /**
   * `strip()` keeps the contiguous middle part `s[i..j]`: it removes only whitespace, from
   * both ends, and what it keeps neither starts nor ends with whitespace.
   */
  lemma StripMeaning(s: string) returns (i: nat, j: nat)
    ensures i <= j <= |s| && Strip(s) == s[i..j]
    ensures AllSpace(s, 0, i) && AllSpace(s, j, |s|)
    ensures Strip(s) == [] || (!IsSpace(s[i]) && !IsSpace(s[j - 1]))
  {
    var l := StripLeft(s);
    var r := StripRight(l);
    assert Strip(s) == r;
    i := |s| - |l|;
    j := i + |r|;
    PrefixOfSuffix(s, i, l, r);
    SpaceInSuffix(s, i, |r|);
    if r != [] {
      assert r[0] == l[0];
    }
  }

  /** A prefix `r` of the suffix `l == s[i..]` is the slice `s[i..i + |r|]`, with the same ends. */
  lemma PrefixOfSuffix(s: string, i: nat, l: string, r: string)
    requires i <= |s| && l == s[i..] && |r| <= |l| && r == l[..|r|]
    ensures r == s[i..i + |r|]
    ensures r != [] ==> r[0] == s[i] && r[|r| - 1] == s[i + |r| - 1]
  {
  }

  /** Whitespace at the end of the suffix `s[i..]` is whitespace at the end of `s`. */
  lemma SpaceInSuffix(s: string, i: nat, n: nat)
    requires i + n <= |s| && AllSpace(s[i..], n, |s| - i)
    ensures AllSpace(s, i + n, |s|)
  {
    forall x | i + n <= x < |s|
      ensures IsSpace(s[x])
    {
      assert s[x] == s[i..][x - i];
    }
  }

  /** What the handler sends back. */
  datatype Reply =
    | Rejected(status: nat, error: string)
    | Analyzed(complexity: string, curve: Growth.Row)

  /**
   * The handler, given the request's `java_code` field (`None` when the field is absent,
   * which `data.get("java_code", "")` turns into the empty string).
   */
  function Analyze(javaCode: Option<string>): (r: Reply)
    ensures r.Rejected? ==> r == Rejected(400, "No Java code provided")
    ensures r.Analyzed? ==> r.complexity in {"O(1)", "O(N)", "O(N^2)"} && r.curve == Growth.RowFor(r.complexity)
  {
    var code := CodeOf(javaCode);
    if Strip(code) == [] then Rejected(400, "No Java code provided")
    else
      var complexity := Classifier.Classify(code).Name();
      Analyzed(complexity, Growth.RowFor(complexity))
  }

  /** The code the handler works on. */
  function CodeOf(javaCode: Option<string>): string {
    if javaCode.Some? then javaCode.value else ""
  }

  /**
   * Blank input (absent, empty or whitespace only) is rejected with status 400 and nothing
   * else is; otherwise the reply carries the classifier's label for the code and the row
   * drawn for that label, which is never the `O(2^N)` row.
   */
  lemma AnalyzeContract(javaCode: Option<string>)
    ensures Analyze(javaCode).Rejected? <==> AllSpace(CodeOf(javaCode), 0, |CodeOf(javaCode)|)
    ensures Analyze(javaCode).Rejected? ==> Analyze(javaCode) == Rejected(400, "No Java code provided")
    ensures Analyze(javaCode).Analyzed? ==>
              Analyze(javaCode).complexity == Classifier.Classify(CodeOf(javaCode)).Name()
              && Analyze(javaCode).complexity in {"O(1)", "O(N)", "O(N^2)"}
              && Analyze(javaCode).curve == Growth.RowFor(Analyze(javaCode).complexity)
              && Analyze(javaCode).curve != Growth.ExponentialRow
  {
  }

  /** An absent field and an empty string are both rejected, before any classification. */
  lemma EmptyInputRejected()
    ensures Analyze(None) == Rejected(400, "No Java code provided")
    ensures Analyze(Some("")) == Rejected(400, "No Java code provided")
    ensures Analyze(Some(" \t\n")) == Rejected(400, "No Java code provided")
  {
    var blank := " \t\n";
    assert AllSpace(blank, 0, |blank|) by {
      assert IsSpace(blank[0]) && IsSpace(blank[1]) && IsSpace(blank[2]);
    }
    AnalyzeContract(None);
    AnalyzeContract(Some(""));
    AnalyzeContract(Some(blank));
  }
}
