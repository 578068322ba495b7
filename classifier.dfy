/**
 * `analyze_java_complexity` (app.py, lines 12-40): three textual signals, then a label
 * chosen by a fixed priority chain and a single HashMap override.
 */
module Classifier {
  import LoopSignal
  import RecursionSignal
  import HashMapSignal

  /** The complexity labels the service knows; the classifier never produces `O2N`. */
  datatype Label = O1 | ON | ON2 | O2N {
    /** The text of the label, as returned to the caller and passed to the renderer. */
    function Name(): string {
      match this
      case O1 => "O(1)"
      case ON => "O(N)"
      case ON2 => "O(N^2)"
      case O2N => "O(2^N)"
    }
  }

  /**
   * The priority chain of lines 29-34, starting from the default `O(1)` of line 16:
   * recursion or a single loop give `O(N)`, several loops without recursion `O(N^2)`,
   * and nothing at all leaves `O(1)`.
   */
  function Chain(loopCount: nat, isRecursive: bool): (r: Label)
    ensures r == ON <==> isRecursive || loopCount == 1
    ensures r == ON2 <==> !isRecursive && loopCount >= 2
    ensures r == O1 <==> !isRecursive && loopCount == 0
    ensures r != O2N
  {
    if isRecursive then ON
    else if loopCount == 1 then ON
    else if loopCount >= 2 then ON2
    else O1
  }

  /**
   * The override of lines 37-38: a detected HashMap turns `O(N^2)` into `O(N)`; no other
   * label changes, and with a HashMap the result is never `O(N^2)`.
   */
  function Override(chosen: Label, usesHashMap: bool): (r: Label)
    ensures r != chosen ==> chosen == ON2 && usesHashMap && r == ON
    ensures usesHashMap ==> r != ON2
  {
    if usesHashMap && chosen == ON2 then ON else chosen
  }

  /** The decision of lines 16 and 29-38 on already computed signals. */
  function Decide(loopCount: nat, isRecursive: bool, usesHashMap: bool): (r: Label)
    ensures r != O2N
  {
    Override(Chain(loopCount, isRecursive), usesHashMap)
  }

  /**
   * `analyze_java_complexity(java_code)`: never `O(2^N)`; `O(N)` whenever the recursion
   * pattern matches; never `O(N^2)` when the HashMap pattern matches.
   */
  function Classify(s: string): (r: Label)
    ensures r != O2N
    ensures RecursionSignal.RecursionMatch(s) ==> r == ON
    ensures (exists p: nat, q: nat :: HashMapSignal.HashMapSpan(s, p, q)) ==> r != ON2
  {
    Decide(LoopSignal.CountLoops(s), RecursionSignal.Recursive(s), HashMapSignal.UsesHashMap(s))
  }

  /** The classifier only ever reports `O(1)`, `O(N)` or `O(N^2)`. */
  lemma ClassifyRange(s: string)
    ensures Classify(s) in {O1, ON, ON2}
  {
  }

  /** The override is the only rewrite, and it only ever turns `O(N^2)` into `O(N)`. */
  lemma OverrideOnlyDowngradesQuadratic(chosen: Label, usesHashMap: bool)
    ensures Override(chosen, usesHashMap) == chosen
            || (chosen == ON2 && usesHashMap && Override(chosen, usesHashMap) == ON)
    ensures chosen != ON2 ==> Override(chosen, usesHashMap) == chosen
  {
  }

  /** The HashMap signal changes the decision only where the chain gave `O(N^2)`. */
  lemma HashMapMattersOnlyForQuadratic(loopCount: nat, isRecursive: bool)
    ensures Decide(loopCount, isRecursive, true) != Decide(loopCount, isRecursive, false)
            <==> Chain(loopCount, isRecursive) == ON2
    ensures Decide(loopCount, isRecursive, true) in {O1, ON}
  {
  }

  /** A recursion match yields `O(N)` whatever the loop count or HashMap use. */
  lemma RecursionGivesLinear(s: string)
    requires RecursionSignal.Recursive(s)
    ensures Classify(s) == ON
  {
  }

  /** Exactly one loop match yields `O(N)`, with or without recursion or a HashMap. */
  lemma SingleLoopGivesLinear(s: string)
    requires LoopSignal.CountLoops(s) == 1
    ensures Classify(s) == ON
  {
  }

  /** Without recursion, two or more loop matches yield `O(N^2)`, downgraded to `O(N)` by a HashMap. */
  lemma ManyLoopsGiveQuadratic(s: string)
    requires !RecursionSignal.Recursive(s) && LoopSignal.CountLoops(s) >= 2
    ensures Classify(s) == if HashMapSignal.UsesHashMap(s) then ON else ON2
  {
  }

  /** Without recursion and without loop matches, the default `O(1)` stands, HashMap or not. */
  lemma NoLoopsGiveConstant(s: string)
    requires !RecursionSignal.Recursive(s) && LoopSignal.CountLoops(s) == 0
    ensures Classify(s) == O1
  {
  }

  /**
   * Each label exactly, in terms of what the three regexes match: `O(1)` when no loop
   * pattern and no recursion pattern matches anywhere; `O(N^2)` when `findall` reports two
   * or more loops and neither the recursion nor the HashMap pattern matches; `O(N)` otherwise.
   */
  lemma ClassifyByMatches(s: string)
    ensures Classify(s) == O1 <==>
              (forall p: nat, e: nat ::
                 !LoopSignal.MatchSpan(LoopSignal.ForLoop, s, p, e)
                 && !LoopSignal.MatchSpan(LoopSignal.WhileLoop, s, p, e))
              && !RecursionSignal.RecursionMatch(s)
    ensures Classify(s) == ON2 <==>
              |LoopSignal.FindAll(LoopSignal.ForLoop, s)| + |LoopSignal.FindAll(LoopSignal.WhileLoop, s)| >= 2
              && !RecursionSignal.RecursionMatch(s)
              && !(exists p: nat, q: nat :: HashMapSignal.HashMapSpan(s, p, q))
    ensures Classify(s) == ON <==> Classify(s) != O1 && Classify(s) != ON2
  {
    LoopSignal.NoLoopsIffNoMatch(s);
    RecursionSignal.RecursiveIsRegexMatch(s);
    HashMapSignal.UsesHashMapIsRegexMatch(s);
  }
}
