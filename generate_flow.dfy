/** The script-generation flow: its input and output schemas, the prompt the input is rendered
    into, and the flow body that checks the model's output. */
module GenerateFlow {
  import opened Wrappers
  import opened ReelSchema
  import opened ModelOracle

  /** The flow's input schema; the `length` enum is enforced by its type. */
  datatype GenerateReelScriptsInput = GenerateReelScriptsInput(
    topic: string, length: ReelLength, language: string, tone: string, objective: string)

  datatype GenerateReelScriptsOutput = GenerateReelScriptsOutput(scripts: seq<string>)

  /** The number of scripts both output schemas declare. */
  const ExpectedScriptCount: nat := 5

  /** The declared output shape: an array of exactly five strings. */
  predicate OutputSchemaAccepts(output: GenerateReelScriptsOutput) {
    |output.scripts| == ExpectedScriptCount
  }

  const NoOutputMessage: string := "The generation process failed to produce an output."

  /** What the flow writes to the console: a warning carrying the number of scripts received. */
  datatype Warning = ScriptCountMismatch(received: nat)

  /** One run of the flow: its outcome and the warnings it logged on the way. */
  datatype FlowRun = FlowRun(result: Result<GenerateReelScriptsOutput, string>, warnings: seq<Warning>)

  // ---- The prompt template ----

  /** The five input fields, in the order the template interpolates them. */
  datatype BriefField = TopicField | LengthField | LanguageField | ToneField | ObjectiveField

  const PromptFields: seq<BriefField> := [TopicField, LengthField, LanguageField, ToneField, ObjectiveField]

  /** The template's fixed opening paragraphs, each separated from the next by a blank line. */
  const PreambleParagraphs: string :=
    "You are an expert Instagram growth strategist, deeply knowledgeable about current trends and audience psychology. You have done extensive market research on what makes reels go viral.\n\n"
    + "You MUST generate exactly 5 **complete** and **unique** Instagram reel scripts based on the topic, length, language, tone, and objective provided.\n\n"
    + "**IMPORTANT:** Each script in the output array MUST be a self-contained, full reel concept from start to finish. Do NOT break one script idea into multiple parts across the array entries. Ensure you provide exactly 5 distinct scripts."

  /** Everything before the first field line: the paragraphs and a blank line. */
  const PromptPreamble: string := PreambleParagraphs + "\n\n"

  const PromptClosing: string :=
    "\nHere are the 5 complete and unique reel scripts, meticulously crafted for impact:\n"

  function Label(f: BriefField): string {
    match f
    case TopicField => "Topic: "
    case LengthField => "Length: "
    case LanguageField => "Language: "
    case ToneField => "Tone: "
    case ObjectiveField => "Objective: "
  }

  function FieldValue(input: GenerateReelScriptsInput, f: BriefField): string {
    match f
    case TopicField => input.topic
    case LengthField => LengthName(input.length)
    case LanguageField => input.language
    case ToneField => input.tone
    case ObjectiveField => input.objective
  }

  /** One `Label: {{{field}}}` line of the template; the triple braces insert the value unescaped. */
  function FieldLine(input: GenerateReelScriptsInput, f: BriefField): string {
    Label(f) + FieldValue(input, f) + "\n"
  }

  function FieldLines(input: GenerateReelScriptsInput, fs: seq<BriefField>): string {
    if fs == [] then "" else FieldLine(input, fs[0]) + FieldLines(input, fs[1..])
  }

  /** The prompt text the model receives for `input`. */
  function RenderPrompt(input: GenerateReelScriptsInput): string {
    PromptPreamble + FieldLines(input, PromptFields) + PromptClosing
  }

  lemma {:induction false} FieldLinesAppend(input: GenerateReelScriptsInput, a: seq<BriefField>, b: seq<BriefField>)
    ensures FieldLines(input, a + b) == FieldLines(input, a) + FieldLines(input, b)
  {
    if a == [] {
      assert a + b == b;
    } else {
      assert (a + b)[0] == a[0] && (a + b)[1..] == a[1..] + b;
      FieldLinesAppend(input, a[1..], b);
    }
  }

  lemma FieldLinesCons(input: GenerateReelScriptsInput, f: BriefField, rest: seq<BriefField>)
    ensures FieldLines(input, [f] + rest) == FieldLine(input, f) + FieldLines(input, rest)
  {
    assert ([f] + rest)[1..] == rest;
  }

  lemma {:induction false} FieldLinesEndLine(input: GenerateReelScriptsInput, fs: seq<BriefField>)
    requires fs != []
    ensures var t := FieldLines(input, fs); t != [] && t[|t| - 1] == '\n'
  {
    if |fs| > 1 {
      FieldLinesEndLine(input, fs[1..]);
    }
  }

  lemma Regroup(a: string, b: string, c: string, d: string, e: string)
    ensures a + (b + (c + d)) + e == (a + b) + c + (d + e)
  {
  }

  /** `p` holds, at offset `at`, a line made of `heading` followed by `value`, and a line break
      precedes it. */
  predicate LineShownAt(p: string, at: nat, heading: string, value: string) {
    var v := at + |heading|;
    var e := v + |value|;
    && 0 < at && e < |p|
    && p[at - 1] == '\n'
    && p[at..v] == heading
    && p[v..e] == value
    && p[e] == '\n'
  }

  lemma LineAt(before: string, heading: string, value: string, after: string)
    requires before != [] && before[|before| - 1] == '\n'
    ensures LineShownAt(before + (heading + value + "\n") + after, |before|, heading, value)
  {
  }

  /** Every field of the input stands in the prompt on a line of its own, right after its label;
      the lines come in template order, after the fixed preamble. */
  lemma PromptShowsField(input: GenerateReelScriptsInput, i: nat)
    requires i < |PromptFields|
    ensures LineShownAt(RenderPrompt(input), |PromptPreamble| + |FieldLines(input, PromptFields[..i])|,
                        Label(PromptFields[i]), FieldValue(input, PromptFields[i]))
  {
    EndsWithBlankLine(PreambleParagraphs);
    TemplateShowsField(PromptPreamble, PromptFields, PromptClosing, input, i);
  }

  lemma EndsWithBlankLine(text: string)
    ensures var p := text + "\n\n"; p != [] && p[|p| - 1] == '\n'
  {
  }

  /** `PromptShowsField` for any preamble that ends a line, any field list and any closing text. */
  lemma TemplateShowsField(preamble: string, fs: seq<BriefField>, closing: string, input: GenerateReelScriptsInput, i: nat)
    requires preamble != [] && preamble[|preamble| - 1] == '\n'
    requires i < |fs|
    ensures LineShownAt(preamble + FieldLines(input, fs) + closing, |preamble| + |FieldLines(input, fs[..i])|,
                        Label(fs[i]), FieldValue(input, fs[i]))
  {
    var before := preamble + FieldLines(input, fs[..i]);
    var after := FieldLines(input, fs[i + 1..]) + closing;
    var line := Label(fs[i]) + FieldValue(input, fs[i]) + "\n";
    TemplateAroundField(preamble, fs, closing, input, i);
    assert preamble + FieldLines(input, fs) + closing == before + line + after;
    assert |before| == |preamble| + |FieldLines(input, fs[..i])|;
    LineAt(before, Label(fs[i]), FieldValue(input, fs[i]), after);
  }

  /** The template text splits around the `i`-th field's line, and the text before it ends a line. */
  lemma TemplateAroundField(preamble: string, fs: seq<BriefField>, closing: string, input: GenerateReelScriptsInput, i: nat)
    requires preamble != [] && preamble[|preamble| - 1] == '\n'
    requires i < |fs|
    ensures var before := preamble + FieldLines(input, fs[..i]);
      && preamble + FieldLines(input, fs) + closing
         == before + FieldLine(input, fs[i]) + (FieldLines(input, fs[i + 1..]) + closing)
      && before[|before| - 1] == '\n'
  {
    var f := fs[i];
    var tail := [f] + fs[i + 1..];
    assert fs == fs[..i] + tail;
    FieldLinesAppend(input, fs[..i], tail);
    FieldLinesCons(input, f, fs[i + 1..]);
    Regroup(preamble, FieldLines(input, fs[..i]), FieldLine(input, f), FieldLines(input, fs[i + 1..]), closing);
    if i == 0 {
      assert fs[..i] == [];
    } else {
      FieldLinesEndLine(input, fs[..i]);
    }
  }

  /** Every interpolated field is one of the five listed. */
  lemma PromptFieldsComplete(f: BriefField)
    ensures f in PromptFields
  {
  }

  // ---- The flow ----

  /** `generateReelScriptsFlow`: a throwing call rejects with its error, a missing output rejects
      with `NoOutputMessage`, and any present output resolves unchanged. A script count other
      than five is only logged as a warning. */
  function GenerateReelScriptsFlow(input: GenerateReelScriptsInput, prompt: string -> ModelCall<GenerateReelScriptsOutput>): (run: FlowRun)
    ensures var call := prompt(RenderPrompt(input));
      && (run.result.Success? <==> call.Resolved? && call.output.Some?)
      && (run.result.Success? ==> run.result.value == call.output.value)
      && (call.Threw? ==> run.result == Failure(call.message))
      && (call.Resolved? && call.output.None? ==> run.result == Failure(NoOutputMessage))
      && (run.warnings != [] <==> run.result.Success? && !OutputSchemaAccepts(run.result.value))
      && (run.warnings != [] ==> run.warnings == [ScriptCountMismatch(|run.result.value.scripts|)])
  {
    match prompt(RenderPrompt(input))
    case Threw(message) => FlowRun(Failure(message), [])
    case Resolved(None) => FlowRun(Failure(NoOutputMessage), [])
    case Resolved(Some(output)) =>
      var warnings := if |output.scripts| != ExpectedScriptCount then [ScriptCountMismatch(|output.scripts|)] else [];
      FlowRun(Success(output), warnings)
  }

  /** The exported `generateReelScripts`: the flow's outcome for the same input. */
  function GenerateReelScripts(input: GenerateReelScriptsInput, prompt: string -> ModelCall<GenerateReelScriptsOutput>): (r: Result<GenerateReelScriptsOutput, string>)
    ensures r == GenerateReelScriptsFlow(input, prompt).result
    ensures var call := prompt(RenderPrompt(input));
      r.Success? <==> call.Resolved? && call.output.Some?
    ensures r.Success? ==> r.value == prompt(RenderPrompt(input)).output.value
  {
    GenerateReelScriptsFlow(input, prompt).result
  }
}
