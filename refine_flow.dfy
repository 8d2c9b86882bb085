// The script-refinement flow: its schemas, the output check and the clean-up of the model's
// answer, which replaces every `**` (a global regular-expression match) by the empty string.
module RefineFlow {
  import opened Wrappers
  import opened ReelSchema
  import opened ModelOracle

  /** The flow's input schema; the `length` enum is enforced by its type. */
  datatype RefineScriptInput = RefineScriptInput(
    originalScript: string, topic: string, length: ReelLength, language: string,
    originalTone: string, objective: string, refinementGoal: string)

  datatype RefineScriptOutput = RefineScriptOutput(refinedScript: string)

  /** The model's answer before the flow looks at it; its `refinedScript` may be absent. */
  datatype RefineModelOutput = RefineModelOutput(refinedScript: Option<string>)

  const RefineFailedMessage: string := "The refinement process failed to produce a script."

  // ---- Removing bold markers ----

  /** `s` holds no `**`. */
  predicate BoldFree(s: string) {
    forall i :: 0 <= i < |s| - 1 ==> !(s[i] == '*' && s[i + 1] == '*')
  }

  /** The global replacement of `**` by the empty string: the text is scanned left to right and
      each non-overlapping `**` found is dropped. */
  function StripBold(s: string): (r: string)
    ensures |r| <= |s|
  {
    if |s| >= 2 && s[0] == '*' && s[1] == '*' then StripBold(s[2..])
    else if s == [] then []
    else [s[0]] + StripBold(s[1..])
  }

  /** A text that does not start with `*` keeps its first character. */
  lemma StripBoldKeepsHead(s: string)
    requires s != [] && s[0] != '*'
    ensures StripBold(s) == [s[0]] + StripBold(s[1..])
  {
  }

  lemma {:induction false} StripBoldLeavesNoMarker(s: string)
    ensures BoldFree(StripBold(s))
    decreases |s|
  {
    if |s| >= 2 && s[0] == '*' && s[1] == '*' {
      StripBoldLeavesNoMarker(s[2..]);
    } else if s != [] {
      var rest := StripBold(s[1..]);
      StripBoldLeavesNoMarker(s[1..]);
      if s[0] == '*' && |s| >= 2 {
        StripBoldKeepsHead(s[1..]);
        assert rest[0] == s[1] != '*';
      }
      var r := [s[0]] + rest;
      forall i | 0 <= i < |r| - 1 ensures !(r[i] == '*' && r[i + 1] == '*') {
        if i > 0 { assert r[i] == rest[i - 1] && r[i + 1] == rest[i]; }
      }
    }
  }

  /** A text without `**` is returned unchanged. */
  lemma {:induction false} StripBoldKeepsBoldFree(s: string)
    requires BoldFree(s)
    ensures StripBold(s) == s
    decreases |s|
  {
    if s != [] {
      assert BoldFree(s[1..]) by {
        forall i | 0 <= i < |s[1..]| - 1 ensures !(s[1..][i] == '*' && s[1..][i + 1] == '*') {
          assert s[1..][i] == s[i + 1] && s[1..][i + 1] == s[i + 2];
        }
      }
      StripBoldKeepsBoldFree(s[1..]);
      assert s == [s[0]] + s[1..];
    }
  }

  /** Cleaning a cleaned text changes nothing. */
  lemma StripBoldIdempotent(s: string)
    ensures StripBold(StripBold(s)) == StripBold(s)
  {
    StripBoldLeavesNoMarker(s);
    StripBoldKeepsBoldFree(StripBold(s));
  }

  /** The characters of `s` other than `*`, in order. */
  function WithoutStars(s: string): string {
    if s == [] then [] else (if s[0] == '*' then [] else [s[0]]) + WithoutStars(s[1..])
  }

  /** Only `*` characters are deleted: every other character survives, in its order. */
  lemma {:induction false} StripBoldDeletesOnlyStars(s: string)
    ensures WithoutStars(StripBold(s)) == WithoutStars(s)
    decreases |s|
  {
    if |s| >= 2 && s[0] == '*' && s[1] == '*' {
      StripBoldDeletesOnlyStars(s[2..]);
      assert s[1..][1..] == s[2..];
    } else if s != [] {
      StripBoldDeletesOnlyStars(s[1..]);
      assert ([s[0]] + StripBold(s[1..]))[1..] == StripBold(s[1..]);
    }
  }

  // ---- An independent description: star runs ----

  /** `k` stars. */
  function Stars(k: nat): (r: string)
    ensures |r| == k && forall i :: 0 <= i < k ==> r[i] == '*'
  {
    if k == 0 then [] else ['*'] + Stars(k - 1)
  }

  /** The length of the run of stars that `s` starts with. */
  function LeadingStars(s: string): (k: nat)
    ensures k <= |s|
    ensures forall i :: 0 <= i < k ==> s[i] == '*'
    ensures k == |s| || s[k] != '*'
  {
    if s == [] || s[0] != '*' then 0 else 1 + LeadingStars(s[1..])
  }

  /** Each maximal run of `k` stars shrinks to `k % 2` stars; every other character stays. */
  function CollapseStarRuns(s: string): string
    decreases |s|
  {
    if s == [] then []
    else if s[0] != '*' then [s[0]] + CollapseStarRuns(s[1..])
    else
      var k := LeadingStars(s);
      Stars(k % 2) + CollapseStarRuns(s[k..])
  }

  lemma {:induction false} StripBoldStarRun(k: nat, t: string)
    requires t == [] || t[0] != '*'
    ensures StripBold(Stars(k) + t) == Stars(k % 2) + StripBold(t)
  {
    if k == 0 {
      assert Stars(0) + t == t;
    } else if k == 1 {
      assert Stars(1) + t == ['*'] + t;
      assert (['*'] + t)[1..] == t;
    } else if k >= 2 {
      assert Stars(k) == ['*'] + (['*'] + Stars(k - 2));
      var u := Stars(k) + t;
      assert u[2..] == Stars(k - 2) + t;
      StripBoldStarRun(k - 2, t);
      assert (k - 2) % 2 == k % 2;
    }
  }

  /** `StripBold` agrees with the run-based description. */
  lemma {:induction false} StripBoldCollapsesStarRuns(s: string)
    ensures StripBold(s) == CollapseStarRuns(s)
    decreases |s|
  {
    if s != [] {
      if s[0] != '*' {
        StripBoldCollapsesStarRuns(s[1..]);
      } else {
        var k := LeadingStars(s);
        assert s == Stars(k) + s[k..];
        StripBoldStarRun(k, s[k..]);
        StripBoldCollapsesStarRuns(s[k..]);
      }
    }
  }

  /** A text made only of `**` pairs cleans to the empty text. */
  lemma MarkersOnlyCleanToEmpty(n: nat)
    ensures StripBold(Stars(2 * n)) == []
  {
    StripBoldStarRun(2 * n, []);
    assert Stars(2 * n) + [] == Stars(2 * n);
  }

  // ---- The flow ----

  /** `refineScriptFlow`: a throwing call rejects with its error; a missing output, or a missing or
      empty `refinedScript`, rejects with `RefineFailedMessage`; otherwise the answer is returned
      with every `**` removed. The emptiness check looks at the answer before it is cleaned. */
  function RefineScriptFlow(input: RefineScriptInput, prompt: RefineScriptInput -> ModelCall<RefineModelOutput>): (r: Result<RefineScriptOutput, string>)
    ensures var call := prompt(input);
      var answered := call.Resolved? && call.output.Some? && call.output.value.refinedScript.Some?;
      && (r.Success? <==> answered && call.output.value.refinedScript.value != "")
      && (r.Success? ==> r.value.refinedScript == StripBold(call.output.value.refinedScript.value))
      && (r.Success? ==> BoldFree(r.value.refinedScript))
      && (call.Threw? ==> r == Failure(call.message))
      && (call.Resolved? && r.Failure? ==> r.error == RefineFailedMessage)
  {
    match prompt(input)
    case Threw(message) => Failure(message)
    case Resolved(output) =>
      if output.None? || output.value.refinedScript.None? || output.value.refinedScript.value == "" then
        Failure(RefineFailedMessage)
      else
        var cleaned := StripBold(output.value.refinedScript.value);
        StripBoldLeavesNoMarker(output.value.refinedScript.value);
        Success(RefineScriptOutput(cleaned))
  }

  /** An answer made only of `**` pairs passes the emptiness check and comes back empty. */
  lemma MarkersOnlyAnswerRefinesToEmpty(input: RefineScriptInput, prompt: RefineScriptInput -> ModelCall<RefineModelOutput>, n: nat)
    requires n > 0
    requires prompt(input) == Resolved(Some(RefineModelOutput(Some(Stars(2 * n)))))
    ensures RefineScriptFlow(input, prompt) == Success(RefineScriptOutput(""))
  {
    MarkersOnlyCleanToEmpty(n);
  }

  /** The exported `refineScript`: the flow's outcome for the same input. */
  function RefineScript(input: RefineScriptInput, prompt: RefineScriptInput -> ModelCall<RefineModelOutput>): (r: Result<RefineScriptOutput, string>)
    ensures r == RefineScriptFlow(input, prompt)
    ensures r.Success? ==> BoldFree(r.value.refinedScript)
  {
    RefineScriptFlow(input, prompt)
  }
}
