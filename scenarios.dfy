/**
 * The classifier and the handler on concrete inputs: a while loop, nested for loops with
 * and without a HashMap declaration, two loops in sequence with and without one, two for
 * loops on one line, a for loop and a while loop on one line, and a statement without loops.
 * The texts are written as concatenations of short pieces only to keep them cheap to
 * reason about; each constant's comment shows the whole text.
 */
module Scenarios {
  import opened Text
  import opened LoopSignal
  import opened RecursionSignal
  import opened HashMapSignal
  import opened Classifier
  import Growth
  import Handler

  /**
   * `while(x<10){ y++; }` (19 characters). Offsets used below: `while` 0, `(` 5, `)` 10,
   * `{` 11, `}` 18.
   */
  const WhileCode: string := "while(x<" + "10){ y++" + "; }"

  /**
   * `for(int i=0;i<n;i++){ for(int j=0;j<n;j++){} }` (46 characters). Offsets used below:
   * outer `for` 0, its `(` 3, `;` 11 and 15, `)` 19, `{` 20; inner `for` 22, its `(` 25,
   * `)` 41 (the last `)` of the line), `{` 42.
   */
  const NestedCode: string := (("for(int " + "i=0;i<n;") + ("i++){ fo" + "r(int j=")) + ("0;j<n;j+" + "+){} }")

  /**
   * `HashMap<String,Integer> m;`, a newline, then the nested loops above (73 characters).
   * Offsets used below: `HashMap<` 0, `>` 22, newline 26; then the nested loops shifted by
   * 27: outer `for` 27, `(` 30, `;` 38 and 42, `)` 46, `{` 47, inner `for` 49, `(` 52,
   * last `)` 68, `{` 69.
   */
  const HashMapNestedCode: string :=
    (("HashMap<" + "String,I") + ("nteger> " + "m;\n"))
    + ((("for(int " + "i=0;i<n;") + ("i++){ fo" + "r(int j=")) + ("0;j<n;j+" + "+){} }"))

  /**
   * `for(int i=0;i<n;i++){ a++; }`, a newline, then `for(int j=0;j<n;j++){ b++; }`
   * (57 characters). Offsets used below: first `for` 0, `(` 3, `;` 11 and 15, `)` 19,
   * `{` 20, `}` 27, newline 28; second `for` 29, `(` 32, `;` 40 and 44, `)` 48, `{` 49,
   * `}` 56.
   */
  const SequentialCode: string :=
    (("for(int " + "i=0;i<n;") + ("i++){ a+" + "+; }\n")) + (("for(int " + "j=0;j<n;") + ("j++){ b+" + "+; }"))

  /**
   * `for(int i=0;i<n;i++){ a++; } for(int j=0;j<n;j++){ b++; }`: the same two loops on one
   * line (57 characters, a blank at 28 instead of the newline). The offsets are those of
   * `SequentialCode`; the last `)` of the line is now the second loop's, at 48.
   */
  const SameLineCode: string :=
    (("for(int " + "i=0;i<n;") + ("i++){ a+" + "+; } ")) + (("for(int " + "j=0;j<n;") + ("j++){ b+" + "+; }"))

  /**
   * `HashMap<String,Integer> m;`, a newline, then the two sequential loops above
   * (84 characters). Offsets used below: `HashMap<` 0, `>` 22, newline 26; then the loops
   * shifted by 27: first `for` 27, `(` 30, `;` 38 and 42, `)` 46, `{` 47, `}` 54,
   * newline 55; second `for` 56, `(` 59, `;` 67 and 71, `)` 75, `{` 76, `}` 83.
   */
  const HashMapSequentialCode: string :=
    (("HashMap<" + "String,I") + ("nteger> " + "m;\n"))
    + ((("for(int " + "i=0;i<n;") + ("i++){ a+" + "+; }\n")) + (("for(int " + "j=0;j<n;") + ("j++){ b+" + "+; }")))

  /**
   * `for(i;j;k){} while(x){}`: a for loop and a while loop on one line (23 characters).
   * Offsets used below: `for` 0, `(` 3, `;` 5 and 7, `)` 9, `{` 10, `}` 11; `while` 13,
   * `(` 18, `)` 20 (the last `)` of the line), `{` 21, `}` 22.
   */
  const MixedLineCode: string := ("for(i;j;" + "k){} whi") + "le(x){}"

  /** `int x = 1;` */
  const ConstantCode: string := "int x = " + "1;"

  /** The keyword `for` at `i`, from its three letters. */
  lemma ForAt(s: string, i: nat)
    requires i + 3 <= |s| && s[i] == 'f' && s[i + 1] == 'o' && s[i + 2] == 'r'
    ensures s[i..i + 3] == "for"
  {
  }

  /** Text that does not start with whitespace is classified, and its row is drawn. */
  lemma ReplyFor(code: string)
    requires |code| > 0 && !IsSpace(code[0])
    ensures Handler.Analyze(Some(code))
            == Handler.Analyzed(Classify(code).Name(), Growth.RowFor(Classify(code).Name()))
  {
    Handler.AnalyzeContract(Some(code));
  }

  // ---- while(x<10){ y++; } ----

  lemma WhileLine()
    ensures NoneOf(WhileCode, 6, 19, '\n') && NoneOf(WhileCode, 11, 19, ')')
  {
  }

  lemma WhileMatch()
    ensures MatchEnd(WhileLoop, WhileCode, 0) == Some(11)
  {
    var s := WhileCode;
    assert s[0..5] == "while";
    WhileLine();
    MatchEndAt(WhileLoop, s, 0, 5, 10, 19, 0, 0);
  }

  lemma WhileLoops()
    ensures FindAll(ForLoop, WhileCode) == []
    ensures FindAll(WhileLoop, WhileCode) == [Span(0, 11)]
  {
    var s := WhileCode;
    assert NoneOf(s, 0, |s|, 'f');
    FindAllSkips(ForLoop, s, 0, |s|);
    WhileMatch();
    assert NoneOf(s, 11, |s|, 'w');
    FindAllSkips(WhileLoop, s, 11, |s|);
  }

  lemma WhileNothingElse()
    ensures !Recursive(WhileCode) && !UsesHashMap(WhileCode)
  {
    var s := WhileCode;
    RecursionNeedsParenInBody(s);
    assert NoneOf(s, 0, 11, '{');
    BraceThenParenSkips(s, 0, 11);
    assert NoneOf(s, 12, 18, '(');
    CloseBeforeParen(s, 12, 18);
    BraceThenParenSkips(s, 12, |s|);
    assert NoneOf(s, 0, |s|, 'H');
    HashMapNeedsMarker(s);
  }

  /** A single while loop is linear. */
  lemma WhileScenario()
    ensures CountLoops(WhileCode) == 1 && !Recursive(WhileCode)
    ensures Classify(WhileCode) == ON
    ensures Handler.Analyze(Some(WhileCode)) == Handler.Analyzed("O(N)", Growth.LinearRow)
  {
    WhileLoops();
    WhileNothingElse();
    ReplyFor(WhileCode);
  }

  // ---- for(int i=0;i<n;i++){ for(int j=0;j<n;j++){} } ----

  lemma NestedLine()
    ensures NoneOf(NestedCode, 4, 46, '\n') && NoneOf(NestedCode, 42, 46, ')')
  {
  }

  lemma NestedChars()
    ensures NestedCode[0..3] == "for"
    ensures NestedCode[3] == '(' && NestedCode[11] == ';' && NestedCode[15] == ';' && NestedCode[41] == ')'
  {
    ForAt(NestedCode, 0);
  }

  lemma NestedMatch()
    ensures MatchEnd(ForLoop, NestedCode, 0) == Some(42)
  {
    var s := NestedCode;
    NestedChars();
    NestedLine();
    MatchEndAt(ForLoop, s, 0, 3, 41, 46, 11, 15);
  }

  lemma NestedLetters()
    ensures NoneOf(NestedCode, 42, |NestedCode|, 'f')
    ensures NoneOf(NestedCode, 0, |NestedCode|, 'w')
  {
  }

  lemma NestedLoops()
    ensures FindAll(ForLoop, NestedCode) == [Span(0, 42)]
    ensures FindAll(WhileLoop, NestedCode) == []
  {
    var s := NestedCode;
    NestedMatch();
    NestedLetters();
    FindAllSkips(ForLoop, s, 42, |s|);
    FindAllSkips(WhileLoop, s, 0, |s|);
  }

  /** The header `for(...)` and the `{` of its body. */
  lemma NestedHeader()
    ensures Header(NestedCode, 0, 3, 3) && BodyOpen(NestedCode, 3, 19, 20)
    ensures NoneOf(NestedCode, 21, 22, '}')
  {
  }

  /** The inner `for(...)`, read as a call of the name `for`. */
  lemma NestedCall()
    ensures CallSpan(NestedCode, NestedCode[0..3], 22, 25, 41)
  {
    var s := NestedCode;
    ForAt(s, 0);
    ForAt(s, 22);
  }

  /** The recursion pattern fires with the keyword `for` as the repeated name. */
  lemma NestedRecursive()
    ensures Recursive(NestedCode)
  {
    NestedHeader();
    NestedCall();
    SpanIsMatch(NestedCode, 0, 3, 3, 19, 20, 22, 25, 41);
    RecursiveIsRegexMatch(NestedCode);
  }

  /**
   * Nested loops: the greedy for-pattern swallows the inner loop, so only one loop is
   * counted, and the recursion pattern matches too; the label is `O(N)`, not `O(N^2)`.
   */
  lemma NestedScenario()
    ensures CountLoops(NestedCode) == 1 && Recursive(NestedCode)
    ensures Classify(NestedCode) == ON
    ensures Handler.Analyze(Some(NestedCode)) == Handler.Analyzed("O(N)", Growth.LinearRow)
  {
    NestedLoops();
    NestedRecursive();
    ReplyFor(NestedCode);
  }

  // ---- HashMap<String,Integer> m; + the nested loops ----

  lemma HashMapNestedLine()
    ensures NoneOf(HashMapNestedCode, 31, 73, '\n') && NoneOf(HashMapNestedCode, 69, 73, ')')
  {
  }

  lemma HashMapNestedMatch()
    ensures MatchEnd(ForLoop, HashMapNestedCode, 27) == Some(69)
  {
    var s := HashMapNestedCode;
    ForAt(s, 27);
    HashMapNestedLine();
    MatchEndAt(ForLoop, s, 27, 30, 68, 73, 38, 42);
  }

  lemma HashMapNestedLetters()
    ensures NoneOf(HashMapNestedCode, 0, 27, 'f')
    ensures NoneOf(HashMapNestedCode, 69, |HashMapNestedCode|, 'f')
  {
  }

  lemma HashMapNestedNoWhile()
    ensures NoneOf(HashMapNestedCode, 0, |HashMapNestedCode|, 'w')
  {
  }

  lemma HashMapNestedLoops()
    ensures FindAll(ForLoop, HashMapNestedCode) == [Span(27, 69)]
    ensures FindAll(WhileLoop, HashMapNestedCode) == []
  {
    var s := HashMapNestedCode;
    HashMapNestedLetters();
    HashMapNestedNoWhile();
    FindAllSkips(ForLoop, s, 69, |s|);
    HashMapNestedMatch();
    FindAllSkips(ForLoop, s, 0, 27);
    FindAllSkips(WhileLoop, s, 0, |s|);
  }

  lemma HashMapNestedHeader()
    ensures Header(HashMapNestedCode, 27, 30, 30) && BodyOpen(HashMapNestedCode, 30, 46, 47)
    ensures NoneOf(HashMapNestedCode, 48, 49, '}')
  {
  }

  lemma HashMapNestedCall()
    ensures CallSpan(HashMapNestedCode, HashMapNestedCode[27..30], 49, 52, 68)
  {
    var s := HashMapNestedCode;
    ForAt(s, 27);
    ForAt(s, 49);
  }

  lemma HashMapNestedRecursive()
    ensures Recursive(HashMapNestedCode)
  {
    HashMapNestedHeader();
    HashMapNestedCall();
    SpanIsMatch(HashMapNestedCode, 27, 30, 30, 46, 47, 49, 52, 68);
    RecursiveIsRegexMatch(HashMapNestedCode);
  }

  lemma HashMapNestedUsesHashMap()
    ensures UsesHashMap(HashMapNestedCode)
  {
    var s := HashMapNestedCode;
    assert s[0..8] == Marker;
    assert HashMapSpan(s, 0, 22);
    UsesHashMapIsRegexMatch(s);
  }

  /**
   * A HashMap declaration before the nested loops: the label is `O(N)`, but through the
   * recursion signal; the chain never reaches `O(N^2)`, so the override has nothing to do.
   */
  lemma HashMapNestedScenario()
    ensures CountLoops(HashMapNestedCode) == 1 && Recursive(HashMapNestedCode)
    ensures UsesHashMap(HashMapNestedCode)
    ensures Chain(CountLoops(HashMapNestedCode), Recursive(HashMapNestedCode)) == ON
    ensures Classify(HashMapNestedCode) == ON
    ensures Handler.Analyze(Some(HashMapNestedCode)) == Handler.Analyzed("O(N)", Growth.LinearRow)
  {
    HashMapNestedLoops();
    HashMapNestedRecursive();
    HashMapNestedUsesHashMap();
    ReplyFor(HashMapNestedCode);
  }

  // ---- two loops one after the other ----

  lemma SequentialFirstLine()
    ensures NoneOf(SequentialCode, 4, 28, '\n') && NoneOf(SequentialCode, 20, 28, ')')
  {
  }

  lemma SequentialFirstMatch()
    ensures MatchEnd(ForLoop, SequentialCode, 0) == Some(20)
  {
    var s := SequentialCode;
    ForAt(s, 0);
    SequentialFirstLine();
    MatchEndAt(ForLoop, s, 0, 3, 19, 28, 11, 15);
  }

  lemma SequentialSecondLine()
    ensures NoneOf(SequentialCode, 33, 57, '\n') && NoneOf(SequentialCode, 49, 57, ')')
  {
  }

  lemma SequentialSecondMatch()
    ensures MatchEnd(ForLoop, SequentialCode, 29) == Some(49)
  {
    var s := SequentialCode;
    ForAt(s, 29);
    SequentialSecondLine();
    MatchEndAt(ForLoop, s, 29, 32, 48, 57, 40, 44);
  }

  lemma SequentialLetters()
    ensures NoneOf(SequentialCode, 20, 29, 'f')
    ensures NoneOf(SequentialCode, 49, |SequentialCode|, 'f')
  {
  }

  lemma SequentialNoWhileNoHashMap()
    ensures NoneOf(SequentialCode, 0, |SequentialCode|, 'w')
    ensures NoneOf(SequentialCode, 0, |SequentialCode|, 'H')
  {
  }

  lemma SequentialFirstBody()
    ensures NoneOf(SequentialCode, 0, 20, '{') && NoneOf(SequentialCode, 21, 27, '(')
  {
  }

  lemma SequentialSecondBody()
    ensures NoneOf(SequentialCode, 21, 49, '{') && NoneOf(SequentialCode, 50, 56, '(')
  {
  }

  lemma SequentialLoops()
    ensures FindAll(ForLoop, SequentialCode) == [Span(0, 20), Span(29, 49)]
    ensures FindAll(WhileLoop, SequentialCode) == []
  {
    var s := SequentialCode;
    SequentialLetters();
    SequentialNoWhileNoHashMap();
    FindAllSkips(ForLoop, s, 49, |s|);
    SequentialSecondMatch();
    assert FindAllFrom(ForLoop, s, 29) == [Span(29, 49)];
    FindAllSkips(ForLoop, s, 20, 29);
    SequentialFirstMatch();
    FindAllSkips(WhileLoop, s, 0, |s|);
  }

  /** Both bodies close with `}` before any `(`, so the recursion pattern cannot match. */
  lemma SequentialNotRecursive()
    ensures !Recursive(SequentialCode)
  {
    var s := SequentialCode;
    RecursionNeedsParenInBody(s);
    SequentialFirstBody();
    BraceThenParenSkips(s, 0, 20);
    CloseBeforeParen(s, 21, 27);
    SequentialSecondBody();
    BraceThenParenSkips(s, 21, 49);
    CloseBeforeParen(s, 50, 56);
    BraceThenParenSkips(s, 50, |s|);
  }

  lemma SequentialNoHashMap()
    ensures !UsesHashMap(SequentialCode)
  {
    SequentialNoWhileNoHashMap();
    HashMapNeedsMarker(SequentialCode);
  }

  /** Two loop matches and no recursion give `O(N^2)`. */
  lemma SequentialScenario()
    ensures CountLoops(SequentialCode) == 2 && !Recursive(SequentialCode)
    ensures Classify(SequentialCode) == ON2
    ensures Handler.Analyze(Some(SequentialCode)) == Handler.Analyzed("O(N^2)", Growth.QuadraticRow)
  {
    SequentialLoops();
    SequentialNotRecursive();
    SequentialNoHashMap();
    ReplyFor(SequentialCode);
  }

  // ---- two loops one after the other, on one line ----

  lemma SameLineLine()
    ensures NoneOf(SameLineCode, 4, 57, '\n') && NoneOf(SameLineCode, 49, 57, ')')
  {
  }

  lemma SameLineChars()
    ensures SameLineCode[0..3] == "for"
    ensures SameLineCode[3] == '(' && SameLineCode[11] == ';' && SameLineCode[15] == ';' && SameLineCode[48] == ')'
  {
    ForAt(SameLineCode, 0);
  }

  /** The greedy `.*` runs to the second loop's `)`: one match covers both loops. */
  lemma SameLineMatch()
    ensures MatchEnd(ForLoop, SameLineCode, 0) == Some(49)
  {
    var s := SameLineCode;
    SameLineChars();
    SameLineLine();
    MatchEndAt(ForLoop, s, 0, 3, 48, 57, 11, 15);
  }

  lemma SameLineLetters()
    ensures NoneOf(SameLineCode, 49, |SameLineCode|, 'f')
    ensures NoneOf(SameLineCode, 0, |SameLineCode|, 'w')
  {
  }

  lemma SameLineLoops()
    ensures FindAll(ForLoop, SameLineCode) == [Span(0, 49)]
    ensures FindAll(WhileLoop, SameLineCode) == []
  {
    var s := SameLineCode;
    SameLineLetters();
    FindAllSkips(ForLoop, s, 49, |s|);
    SameLineMatch();
    FindAllSkips(WhileLoop, s, 0, |s|);
  }

  /** Two loops in sequence on one line count as one loop match, so the result is `O(N)`. */
  lemma SameLineScenario()
    ensures CountLoops(SameLineCode) == 1
    ensures Classify(SameLineCode) == ON
    ensures Handler.Analyze(Some(SameLineCode)) == Handler.Analyzed("O(N)", Growth.LinearRow)
  {
    SameLineLoops();
    SingleLoopGivesLinear(SameLineCode);
    ReplyFor(SameLineCode);
  }

  // ---- a for loop and a while loop on one line ----

  lemma MixedLineLine()
    ensures NoneOf(MixedLineCode, 4, 23, '\n') && NoneOf(MixedLineCode, 21, 23, ')')
  {
  }

  /** The for-match runs to the while loop's `)` at 20. */
  lemma MixedLineForMatch()
    ensures MatchEnd(ForLoop, MixedLineCode, 0) == Some(21)
  {
    var s := MixedLineCode;
    ForAt(s, 0);
    MixedLineLine();
    MatchEndAt(ForLoop, s, 0, 3, 20, 23, 5, 7);
  }

  /** The while pattern is scanned on its own, so it still matches at 13. */
  lemma MixedLineWhileMatch()
    ensures MatchEnd(WhileLoop, MixedLineCode, 13) == Some(21)
  {
    var s := MixedLineCode;
    assert s[13..18] == "while";
    MixedLineLine();
    MatchEndAt(WhileLoop, s, 13, 18, 20, 23, 0, 0);
  }

  lemma MixedLineLetters()
    ensures NoneOf(MixedLineCode, 21, 23, 'f') && NoneOf(MixedLineCode, 21, 23, 'w')
    ensures NoneOf(MixedLineCode, 0, 13, 'w') && NoneOf(MixedLineCode, 0, 23, 'H')
  {
  }

  lemma MixedLineLoops()
    ensures FindAll(ForLoop, MixedLineCode) == [Span(0, 21)]
    ensures FindAll(WhileLoop, MixedLineCode) == [Span(13, 21)]
  {
    var s := MixedLineCode;
    MixedLineLetters();
    FindAllSkips(ForLoop, s, 21, |s|);
    MixedLineForMatch();
    FindAllSkips(WhileLoop, s, 21, |s|);
    MixedLineWhileMatch();
    assert FindAllFrom(WhileLoop, s, 13) == [Span(13, 21)];
    FindAllSkips(WhileLoop, s, 0, 13);
  }

  lemma MixedLineBodies()
    ensures NoneOf(MixedLineCode, 0, 10, '{') && NoneOf(MixedLineCode, 11, 21, '{')
  {
  }

  /** Both bodies are `{}`: each closes before any `(`, so the recursion pattern cannot match. */
  lemma MixedLineNothingElse()
    ensures !Recursive(MixedLineCode) && !UsesHashMap(MixedLineCode)
  {
    var s := MixedLineCode;
    RecursionNeedsParenInBody(s);
    MixedLineBodies();
    BraceThenParenSkips(s, 0, 10);
    CloseBeforeParen(s, 11, 11);
    BraceThenParenSkips(s, 11, 21);
    CloseBeforeParen(s, 22, 22);
    BraceThenParenSkips(s, 22, |s|);
    MixedLineLetters();
    HashMapNeedsMarker(s);
  }

  /**
   * A for loop and a while loop on one line: each pattern is counted on its own, so the
   * overlapping matches still add up to two loops, and the result is `O(N^2)`.
   */
  lemma MixedLineScenario()
    ensures CountLoops(MixedLineCode) == 2 && !Recursive(MixedLineCode)
    ensures Classify(MixedLineCode) == ON2
    ensures Handler.Analyze(Some(MixedLineCode)) == Handler.Analyzed("O(N^2)", Growth.QuadraticRow)
  {
    MixedLineLoops();
    MixedLineNothingElse();
    ReplyFor(MixedLineCode);
  }

  // ---- HashMap<String,Integer> m; + the sequential loops ----

  lemma HashMapSequentialFirstLine()
    ensures NoneOf(HashMapSequentialCode, 31, 55, '\n') && NoneOf(HashMapSequentialCode, 47, 55, ')')
  {
  }

  lemma HashMapSequentialFirstMatch()
    ensures MatchEnd(ForLoop, HashMapSequentialCode, 27) == Some(47)
  {
    var s := HashMapSequentialCode;
    ForAt(s, 27);
    HashMapSequentialFirstLine();
    MatchEndAt(ForLoop, s, 27, 30, 46, 55, 38, 42);
  }

  lemma HashMapSequentialSecondLine()
    ensures NoneOf(HashMapSequentialCode, 60, 84, '\n') && NoneOf(HashMapSequentialCode, 76, 84, ')')
  {
  }

  lemma HashMapSequentialSecondChars()
    ensures HashMapSequentialCode[56..59] == "for" && HashMapSequentialCode[59] == '('
    ensures HashMapSequentialCode[67] == ';' && HashMapSequentialCode[71] == ';'
    ensures HashMapSequentialCode[75] == ')' && |HashMapSequentialCode| == 84
  {
    ForAt(HashMapSequentialCode, 56);
  }

  lemma HashMapSequentialSecondMatch()
    ensures MatchEnd(ForLoop, HashMapSequentialCode, 56) == Some(76)
  {
    var s := HashMapSequentialCode;
    HashMapSequentialSecondChars();
    HashMapSequentialSecondLine();
    MatchEndAt(ForLoop, s, 56, 59, 75, 84, 67, 71);
  }

  lemma HashMapSequentialLetters()
    ensures NoneOf(HashMapSequentialCode, 0, 27, 'f')
    ensures NoneOf(HashMapSequentialCode, 47, 56, 'f')
  {
  }

  lemma HashMapSequentialTail()
    ensures NoneOf(HashMapSequentialCode, 76, |HashMapSequentialCode|, 'f')
  {
  }

  lemma HashMapSequentialNoWhile()
    ensures NoneOf(HashMapSequentialCode, 0, |HashMapSequentialCode|, 'w')
  {
  }

  lemma HashMapSequentialFirstBody()
    ensures NoneOf(HashMapSequentialCode, 0, 47, '{') && NoneOf(HashMapSequentialCode, 48, 54, '(')
  {
  }

  lemma HashMapSequentialSecondBody()
    ensures NoneOf(HashMapSequentialCode, 48, 76, '{') && NoneOf(HashMapSequentialCode, 77, 83, '(')
  {
  }

  lemma HashMapSequentialLastLoop()
    ensures FindAllFrom(ForLoop, HashMapSequentialCode, 56) == [Span(56, 76)]
  {
    var s := HashMapSequentialCode;
    HashMapSequentialTail();
    FindAllSkips(ForLoop, s, 76, |s|);
    HashMapSequentialSecondMatch();
  }

  lemma HashMapSequentialLoops()
    ensures FindAll(ForLoop, HashMapSequentialCode) == [Span(27, 47), Span(56, 76)]
    ensures FindAll(WhileLoop, HashMapSequentialCode) == []
  {
    var s := HashMapSequentialCode;
    HashMapSequentialLetters();
    HashMapSequentialNoWhile();
    HashMapSequentialLastLoop();
    FindAllSkips(ForLoop, s, 47, 56);
    HashMapSequentialFirstMatch();
    assert FindAllFrom(ForLoop, s, 27) == [Span(27, 47), Span(56, 76)];
    FindAllSkips(ForLoop, s, 0, 27);
    FindAllSkips(WhileLoop, s, 0, |s|);
  }

  lemma HashMapSequentialNotRecursive()
    ensures !Recursive(HashMapSequentialCode)
  {
    var s := HashMapSequentialCode;
    RecursionNeedsParenInBody(s);
    HashMapSequentialFirstBody();
    BraceThenParenSkips(s, 0, 47);
    CloseBeforeParen(s, 48, 54);
    HashMapSequentialSecondBody();
    BraceThenParenSkips(s, 48, 76);
    CloseBeforeParen(s, 77, 83);
    BraceThenParenSkips(s, 77, |s|);
  }

  lemma HashMapSequentialUsesHashMap()
    ensures UsesHashMap(HashMapSequentialCode)
  {
    var s := HashMapSequentialCode;
    assert s[0..8] == Marker;
    assert HashMapSpan(s, 0, 22);
    UsesHashMapIsRegexMatch(s);
  }

  /** The override at work: the chain gives `O(N^2)`, the HashMap turns it into `O(N)`. */
  lemma HashMapSequentialScenario()
    ensures CountLoops(HashMapSequentialCode) == 2 && !Recursive(HashMapSequentialCode)
    ensures UsesHashMap(HashMapSequentialCode)
    ensures Chain(CountLoops(HashMapSequentialCode), Recursive(HashMapSequentialCode)) == ON2
    ensures Classify(HashMapSequentialCode) == ON
    ensures Handler.Analyze(Some(HashMapSequentialCode)) == Handler.Analyzed("O(N)", Growth.LinearRow)
  {
    HashMapSequentialLoops();
    HashMapSequentialNotRecursive();
    HashMapSequentialUsesHashMap();
    ReplyFor(HashMapSequentialCode);
  }

  // ---- int x = 1; ----

  lemma ConstantLetters()
    ensures NoneOf(ConstantCode, 0, |ConstantCode|, 'f')
    ensures NoneOf(ConstantCode, 0, |ConstantCode|, 'w')
    ensures NoneOf(ConstantCode, 0, |ConstantCode|, '{')
    ensures NoneOf(ConstantCode, 0, |ConstantCode|, 'H')
  {
  }

  lemma ConstantSignals()
    ensures CountLoops(ConstantCode) == 0
    ensures !Recursive(ConstantCode) && !UsesHashMap(ConstantCode)
  {
    var s := ConstantCode;
    ConstantLetters();
    FindAllSkips(ForLoop, s, 0, |s|);
    FindAllSkips(WhileLoop, s, 0, |s|);
    RecursionNeedsParenInBody(s);
    BraceThenParenSkips(s, 0, |s|);
    HashMapNeedsMarker(s);
  }

  /** Text with no loop, no recursion and no HashMap keeps the default `O(1)`. */
  lemma ConstantScenario()
    ensures CountLoops(ConstantCode) == 0 && !Recursive(ConstantCode)
    ensures Classify(ConstantCode) == O1
    ensures Handler.Analyze(Some(ConstantCode)) == Handler.Analyzed("O(1)", Growth.ConstantRow)
  {
    ConstantSignals();
    ReplyFor(ConstantCode);
  }
}
