# Java complexity estimator: a Dafny model

The service takes a piece of Java source text and estimates its time complexity. It does
not parse the text. It runs four regular expressions over it and derives three signals:

- a loop count: the matches of a for-loop pattern plus the matches of a while-loop pattern,
  each pattern counted on its own;
- a recursion test: a word, optional whitespace and `(`; then any later `)`, optional
  whitespace and `{`; then, before the next `}`, the same word at a word boundary, optional
  whitespace and `(`; then any later `)`. The first `)` need not close the word's own
  parentheses, and a call that comes after a `}` inside the body is not seen;
- a HashMap test: `HashMap<` at a word boundary (so not inside `LinkedHashMap<`), with a
  `>` later on its line.

A fixed priority chain turns these signals into one of the labels `O(1)`, `O(N)` and
`O(N^2)`. A detected HashMap then turns `O(N^2)` into `O(N)`. The `/analyze` handler
rejects blank code with status 400. Otherwise it returns the label and a chart of the
growth function for that label.

The model covers the following:

- `Text`: the regex building blocks. These are `\s`, `\w`, `\b`, a whitespace run, a word
  run, the first or last occurrence of a character, and the end of a line.
- `LoopSignal`: the two loop patterns. `MatchEnd` is the match the backtracking engine
  reports at one position. It is proved to be the longest match there, and to be absent
  exactly when no match exists. `FindAllFrom` is the `re.findall` scan. It is proved to
  report exactly the leftmost-first, non-overlapping matches.
- `RecursionSignal`: the recursion pattern, under DOTALL. A computed scan is proved
  equivalent to "some choice of positions matches the pattern".
- `HashMapSignal`: the HashMap pattern. Here too the scan is proved equivalent to the
  existence of a match.
- `Classifier`: the priority chain and the override, both on the signals and on the text.
- `Growth`: the input sizes of the chart and the per-label growth table.
- `Handler`: the blank-input check (`strip()`, with Python's whitespace set) and the reply.
- `Scenarios`: the classifier and the handler on concrete texts.

For nested loops the code does not give what its own comment says. At app.py:34 the
`loop_count >= 2` branch, the one labelled `O(N^2)`, is commented `# Nested loops`. Yet
`for(int i=0;i<n;i++){ for(int j=0;j<n;j++){} }` is classified `O(N)`, for two reasons:

- The for-pattern's greedy `.*` runs to the last `)` of the line. One match therefore
  covers both loops, and the loop count is 1.
- The recursion pattern also matches, with the keyword `for` as the "recursive" name.

The model follows the code. The same holds with a `HashMap<String,Integer> m;` line in
front. The result is `O(N)`, but because of the recursion signal, not the override.
`Scenarios.NestedScenario` and `Scenarios.HashMapNestedScenario` prove both outcomes.

Two `for` loops in sequence reach `O(N^2)` only when they are on separate lines, which
`Scenarios.SequentialScenario` proves. With a HashMap in front, the override turns that
into `O(N)`, as `Scenarios.HashMapSequentialScenario` proves. When two `for` loops (or two
`while` loops) are on one line, the greedy `.*` again makes a single match of both. The
count is then 1 and the result is `O(N)`, as `Scenarios.SameLineScenario` proves. The two
patterns are counted separately (app.py:25), so a `for` loop and a `while` loop on one
line still count as two, even though their matches overlap. `for(i;j;k){} while(x){}` is
therefore `O(N^2)`, as `Scenarios.MixedLineScenario` proves.

## Model

| member | source | states |
|---|---|---|
| Text.SkipSpace | app.py:19-22 | `\s*` stops at the first non-whitespace character; everything it skips is whitespace |
| Text.WordEnd | app.py:22 | `\w+` stops at the first non-word character; everything it consumes is a word character |
| Text.IsSpace | app.py:19-22 | every ASCII blank, tab, newline and carriage return is whitespace, and no whitespace character is a word character |
| Text.FirstIndex | app.py:19-27 | the first occurrence of a character in a range, or none in the whole range |
| Text.LastIndex | app.py:19-22 | the last occurrence of a character in a range, or none in the whole range |
| Text.LineEnd | app.py:19-23 | the next newline, or the end of the text, with no newline before it (where `.` stops without DOTALL) |
| Text.FirstIndexUnique | app.py:19-27 | an occurrence with none before it is the first one |
| Text.LastIndexUnique | app.py:19-22 | an occurrence with none after it is the last one |
| Text.LineEndUnique | app.py:19-23 | a newline with none before it ends the line |
| LoopSignal.TwoSemicolonsFrom | app.py:19 | any two `;` inside the parentheses satisfy the `.*;.*;.*` part |
| LoopSignal.TwoSemicolonsWitness | app.py:19 | when the `.*;.*;.*` part holds, two such `;` exist |
| LoopSignal.MatchEnd | app.py:18-20 | the engine's match at a position is a match, no match there is longer, and there is none exactly when no match starts there |
| LoopSignal.ShapeMatches | app.py:18-20 | when the keyword, the `(` and a later `)` on that line (and, for `for`, two `;` before it) are there, ending after the last such `)` is the longest match |
| LoopSignal.NoShapeNoMatch | app.py:18-20 | otherwise no match starts at that position |
| LoopSignal.MatchShape | app.py:18-20 | every match has its `(` where the whitespace after the keyword ends, and ends no later than the last `)` of that line |
| LoopSignal.MatchEndAt | app.py:18-20 | the engine's match from its parts: the keyword, the `(`, the last `)` of the line and (for `for`) two semicolons |
| LoopSignal.FindAllIsLeftmost | app.py:25 | `re.findall` reports exactly the engine's matches, in order, not overlapping, with no match starting before, between or after them |
| LoopSignal.PrependLeftmost | app.py:25 | a match followed by the leftmost matches from its end are the leftmost matches from its start |
| LoopSignal.ExtendLeftmost | app.py:25 | a position where no match starts does not change the leftmost matches |
| LoopSignal.FindAllSkips | app.py:25 | no match starts where the keyword's first letter is absent |
| LoopSignal.FindAllFrom | app.py:25 | the scan reports at most one match per character of the text |
| LoopSignal.ScanAfterMatch | app.py:25 | where a match starts, the scan reports it and continues from its end, and stays leftmost-first |
| LoopSignal.ScanPastPosition | app.py:25 | where no match starts, the scan moves one character on, and stays leftmost-first |
| LoopSignal.FindAll | app.py:25 | `re.findall(pattern, java_code)`: exactly the leftmost-first, non-overlapping matches of the whole text |
| LoopSignal.CountLoops | app.py:25 | `loop_count` is 0 exactly when neither loop pattern matches anywhere, and at most two per character |
| LoopSignal.NoLoopsIffNoMatch | app.py:18-25 | the loop count is 0 exactly when neither loop pattern matches anywhere |
| RecursionSignal.RecursiveIsRegexMatch | app.py:22-26 | the scan succeeds exactly when `re.search` with DOTALL finds the pattern |
| RecursionSignal.Recursive | app.py:22-26 | (through the scan `RecursiveFrom` that `re.search` performs) `is_recursive` is true exactly when some choice of positions matches the pattern under DOTALL |
| RecursionSignal.CallInBodyFound | app.py:22 | the call that the body scan reports lies before the body's first `}` |
| RecursionSignal.CallInBodyComplete | app.py:22 | any call before the body's first `}` is reported |
| RecursionSignal.BodyFromFound | app.py:22 | the header `)` that the scan reports is followed by a body that calls the name |
| RecursionSignal.BodyFromComplete | app.py:22 | any such `)` is found |
| RecursionSignal.RecursiveFromFound | app.py:22-26 | the name position that the scan reports starts a match |
| RecursionSignal.RecursiveFromComplete | app.py:22-26 | any name position that starts a match is found |
| RecursionSignal.RecursionNeedsParenInBody | app.py:22-26 | every match needs a `(` after a `{` with no `}` between them |
| RecursionSignal.SpanIsMatch | app.py:22 | positions that satisfy every part of the pattern form a match |
| RecursionSignal.SpanIsFound | app.py:22-26 | the scan finds the match given by such positions |
| RecursionSignal.CloseBeforeParen | app.py:22 | a `}` before any `(` closes the body without a call |
| RecursionSignal.BraceThenParenSkips | app.py:22 | a stretch without `{` cannot start a body |
| HashMapSignal.HashMapFrom | app.py:23-27 | the scan succeeds exactly when a match starts at some position in the range |
| HashMapSignal.UsesHashMapIsRegexMatch | app.py:23-27 | `uses_hashmap` is true exactly when some `HashMap<` at a word boundary has a `>` later on its line |
| HashMapSignal.UsesHashMap | app.py:23-27 | `uses_hashmap` is true exactly when some `HashMap<` at a word boundary is followed by `>` on its line |
| HashMapSignal.HashMapNeedsMarker | app.py:23-27 | text without the letter `H` never uses a HashMap |
| Classifier.Chain | app.py:29-34 | `O(N)` exactly with recursion or one loop; `O(N^2)` exactly without recursion and with two or more loops; `O(1)` exactly with neither; never `O(2^N)` |
| Classifier.Override | app.py:36-38 | only `O(N^2)` is rewritten, only into `O(N)` and only with a HashMap; with a HashMap the result is never `O(N^2)` |
| Classifier.Decide | app.py:16-38 | the chain and override never produce `O(2^N)` |
| Classifier.Classify | app.py:12-40 | (with `Label.Name`, the label texts of lines 16, 30, 32, 34 and 38) never `O(2^N)`; `O(N)` whenever the recursion pattern matches; never `O(N^2)` when the HashMap pattern matches |
| Classifier.ClassifyRange | app.py:12-40 | the classifier only reports `O(1)`, `O(N)` or `O(N^2)` |
| Classifier.OverrideOnlyDowngradesQuadratic | app.py:36-38 | the override leaves every label except `O(N^2)` unchanged, and turns `O(N^2)` only into `O(N)` |
| Classifier.HashMapMattersOnlyForQuadratic | app.py:29-38 | the HashMap signal changes the result exactly when the chain gave `O(N^2)`; with it the result is `O(1)` or `O(N)` |
| Classifier.RecursionGivesLinear | app.py:29-30 | a recursion match gives `O(N)` whatever the loop count |
| Classifier.SingleLoopGivesLinear | app.py:29-32 | one loop match gives `O(N)`, with or without recursion or a HashMap |
| Classifier.ManyLoopsGiveQuadratic | app.py:29-38 | without recursion, two or more loop matches give `O(N^2)`, or `O(N)` with a HashMap |
| Classifier.NoLoopsGiveConstant | app.py:16-34 | without recursion and without loop matches the default `O(1)` stands |
| Classifier.ClassifyByMatches | app.py:12-40 | each label exactly in terms of what the three patterns match |
| Growth.RowFor | app.py:48-57 | the row drawn for each label text; every unrecognised text falls back to the constant row |
| Growth.Linspace | app.py:46 | `num` points from `start` to `stop` inclusive with a constant step |
| Growth.Domain | app.py:46 | 100 input sizes, the k-th being k + 1 |
| Growth.Value | app.py:48-57 | each polynomial row gives at least 1 and at most n² at a positive size n |
| Growth.Curve | app.py:48-57 | one value per input size, each between 1 and the square of its size |
| Growth.FlatCurve | app.py:48-57 | `O(1)` and every unrecognised label draw 1 everywhere, so the value at size 1 equals the value at size 100 |
| Growth.LinearCurve | app.py:50-51 | `O(N)` draws the input size itself |
| Growth.QuadraticCurve | app.py:52-53 | `O(N^2)` draws the squares; the value at size 100 is 10000 times the value at size 1 |
| Growth.CurveNonDecreasing | app.py:48-53 | every polynomial curve is non-decreasing along the domain |
| Growth.ValueMonotone | app.py:49-53 | each polynomial row is monotone on positive sizes |
| Handler.StripLeft | app.py:81 | the result is a suffix, everything removed is whitespace, and it does not start with whitespace |
| Handler.StripRight | app.py:81 | the result is a prefix, everything removed is whitespace, and it does not end with whitespace |
| Handler.Strip | app.py:81 | `strip()` is empty exactly when the code is empty or all whitespace |
| Handler.StripMeaning | app.py:81 | `strip()` keeps a contiguous middle part, removes only whitespace at both ends, and keeps no whitespace at either end |
| Handler.Analyze | app.py:78-87 | (with `CodeOf`, the `""` default of `data.get` on line 79) a rejection is always 400 with the fixed message; a reply carries one of the three reachable labels and the row drawn for it |
| Handler.AnalyzeContract | app.py:76-87 | rejected exactly for blank code, always with 400 and the fixed message; otherwise the classifier's label and never the `O(2^N)` row |
| Handler.EmptyInputRejected | app.py:78-82 | an absent field, an empty string and whitespace are all rejected with 400 |
| Scenarios.ReplyFor | app.py:81-87 | code that does not start with whitespace gets its label and the row for that label |
| Scenarios.WhileScenario | app.py:18-32 | `while(x<10){ y++; }` counts one loop and is `O(N)` |
| Scenarios.NestedScenario | app.py:18-34 | the nested for loops count one loop, match the recursion pattern, and are `O(N)` |
| Scenarios.HashMapNestedScenario | app.py:18-38 | with `HashMap<String,Integer> m;` in front the result is still `O(N)`, through recursion; no override applies |
| Scenarios.SequentialScenario | app.py:18-34 | two loops in sequence count two, do not match recursion, and are `O(N^2)` |
| Scenarios.SameLineScenario | app.py:18-32 | the two loops on one line make one greedy for-match, so the count is 1 and the result `O(N)` |
| Scenarios.MixedLineScenario | app.py:18-34 | a `for` and a `while` loop on one line give overlapping matches, one per pattern; the count is 2 and the result `O(N^2)` |
| Scenarios.HashMapSequentialScenario | app.py:18-38 | with a HashMap in front the chain gives `O(N^2)` and the override makes it `O(N)` |
| Scenarios.ConstantScenario | app.py:16-34 | `int x = 1;` has no loop, recursion or HashMap and keeps `O(1)` |

## Left out

- The Flask application, CORS and the route registration (app.py:1-10, 76, 89-90) are not modelled. Neither is JSON decoding: the model starts from the `java_code` field, absent or present.
- Requests whose body is not a JSON object are not modelled. Flask itself answers a malformed JSON body with 400 and, in recent versions, a body that is not declared as JSON with 415. A JSON value that is not an object (or `None` from an older Flask) fails at `data.get`, and a `java_code` that is not a string fails at `strip()`; both give a server error. The model's field is always a string or absent.
- Drawing and encoding the chart (app.py:59-74, matplotlib, PNG, base64) are left out. The reply carries the growth row that would be drawn instead of the image.
- Growth.Curve: computes no values for the `O(2^N)` row, because its formula `2 ** (n / 10)` is floating point. It requires a polynomial row, and that row is never reached from the classifier (`Classifier.Decide`).
- Growth.Value: the same restriction to the constant, linear and quadratic rows.
- Growth.Linspace: models `np.linspace` only when the step is a whole number, and with integers rather than floats. That is exact for `linspace(1, 100, 100)`.
- Text.IsWordChar: `\w` and `\b` are ASCII-only here. Python's `str` patterns also count non-ASCII letters and digits as word characters.
- The regex engine is modelled through what it returns for these four patterns, not in general.
- The regexes are applied to the text unchanged, as in the source. Unicode normalisation and encoding do not arise.
