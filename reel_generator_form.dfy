// The reel generator form component: its UI state, the two effects that adjust it, the
// submission handler, and which result panel is shown for a given state.
module ReelGeneratorForm {
  import opened Wrappers
  import opened GenerateFlow
  import opened ModelOracle
  import opened FormLanguages
  import opened FormSchema
  import opened FormProgress
  import opened JsString

  /** The fixed text shown when generation fails, whatever the failure was. */
  const GenerationFailedMessage: string :=
    "Hmm, couldn't quite generate scripts with that. Could you try rephrasing your topic or adjusting the settings? Sometimes a different approach sparks the AI's creativity!"

  // ---- Panel selection ----

  /** The alternatives in the results area, in the order they are rendered. */
  datatype Panel = ErrorPanel | LoadingPanel | ResultsPanel | InitialPanel

  /** JavaScript truthiness of the `error` state: set and non-empty. */
  predicate ErrorShown(error: Option<string>) {
    error.Some? && error.value != ""
  }

  /** The panels whose conditions hold, in render order. */
  function VisiblePanels(isLoading: bool, error: Option<string>, scripts: Option<GenerateReelScriptsOutput>): (panels: seq<Panel>)
    ensures ErrorPanel in panels <==> ErrorShown(error)
    ensures LoadingPanel in panels <==> isLoading
    ensures ResultsPanel in panels <==> !isLoading && scripts.Some? && |scripts.value.scripts| > 0
    ensures InitialPanel in panels <==> !isLoading && scripts.None? && !ErrorShown(error)
  {
    (if ErrorShown(error) then [ErrorPanel] else [])
    + (if isLoading then [LoadingPanel] else [])
    + (if !isLoading && scripts.Some? && |scripts.value.scripts| > 0 then [ResultsPanel] else [])
    + (if !isLoading && scripts.None? && !ErrorShown(error) then [InitialPanel] else [])
  }

  /** The states the component can be in between handler runs (see `FormState.Valid`). */
  predicate Consistent(isLoading: bool, error: Option<string>, scripts: Option<GenerateReelScriptsOutput>) {
    && (isLoading ==> error.None? && scripts.None?)
    && (error.Some? ==> error.value == GenerationFailedMessage && scripts.None?)
  }

  /** In a consistent state at most one panel is shown, and exactly one unless an empty script
      list came back. */
  lemma AtMostOnePanel(isLoading: bool, error: Option<string>, scripts: Option<GenerateReelScriptsOutput>)
    requires Consistent(isLoading, error, scripts)
    ensures |VisiblePanels(isLoading, error, scripts)| <= 1
    ensures VisiblePanels(isLoading, error, scripts) == [] <==>
      !isLoading && error.None? && scripts.Some? && scripts.value.scripts == []
  {
  }

  /** The error and loading panels are never shown together in a consistent state. */
  lemma ErrorAndLoadingExclusive(isLoading: bool, error: Option<string>, scripts: Option<GenerateReelScriptsOutput>)
    requires Consistent(isLoading, error, scripts)
    ensures !(ErrorPanel in VisiblePanels(isLoading, error, scripts) && LoadingPanel in VisiblePanels(isLoading, error, scripts))
  {
  }

  // ---- The component state ----

  class FormState {
    var generatedScripts: Option<GenerateReelScriptsOutput>
    var isLoading: bool
    var error: Option<string>
    var sortedLanguages: seq<string>
    var defaultLanguage: string
    var progress: int
    var loadingMessage: string
    /** The form library's field values and its current validation issues. */
    var values: FormValues
    var issues: seq<FormIssue>

    /** What holds between handler runs: a submission in flight has cleared the error and the
        results, an error is the fixed message and leaves no results, and progress is a
        percentage. */
    predicate Valid()
      reads this
    {
      && Consistent(isLoading, error, generatedScripts)
      && 0 <= progress <= 100
    }

    /** The panels rendered for the current state. */
    function Panels(): seq<Panel>
      reads this
    {
      VisiblePanels(isLoading, error, generatedScripts)
    }

    /** The submit button's `disabled` attribute: set while a submission is loading. */
    predicate SubmitDisabled()
      reads this
    {
      isLoading
    }

    /** The initial state of every `useState` and of the form. The scalar fields are compared
        as one tuple, so that the list arrangement is not re-evaluated for each of them. */
    constructor ()
      ensures Valid()
      ensures sortedLanguages == SortLanguages(None)
      ensures (generatedScripts, isLoading, error, defaultLanguage, progress, loadingMessage, values, issues)
        == (None, false, None, DefaultLanguage, 0, "Initializing...", DefaultValues, [])
    {
      generatedScripts := None;
      isLoading := false;
      error := None;
      sortedLanguages := SortLanguages(None);
      defaultLanguage := DefaultLanguage;
      progress := 0;
      loadingMessage := "Initializing...";
      values := DefaultValues;
      issues := [];
    }

    /** `setDefaultLanguage(name)` followed by `setSortedLanguages(sortLanguages(name))`. */
    method ShowLanguagesFor(name: string)
      requires Valid()
      modifies this
      ensures Valid()
      ensures defaultLanguage == name && sortedLanguages == SortLanguages(Some(name))
      ensures (generatedScripts, isLoading, error, progress, loadingMessage, values, issues)
        == old((generatedScripts, isLoading, error, progress, loadingMessage, values, issues))
    {
      defaultLanguage := name;
      sortedLanguages := SortLanguages(Some(name));
    }

    /** The detection effect, run once on mount: the detected language becomes the default, the
        list is re-arranged for it (so it comes first, by `SortLanguagesFirst`), and the form is
        reset with it as the language while the other field values are kept. */
    method DetectLanguageEffect(browser: Browser)
      requires Valid()
      modifies this
      ensures Valid()
      ensures defaultLanguage == DetectLanguage(browser)
      ensures sortedLanguages == SortLanguages(Some(defaultLanguage))
      ensures values == old(values).(language := defaultLanguage) && issues == []
      ensures (generatedScripts, isLoading, error, progress, loadingMessage)
        == old((generatedScripts, isLoading, error, progress, loadingMessage))
    {
      var detected := DetectLanguage(browser);
      ShowLanguagesFor(detected);
      values := values.(language := detected);
      issues := [];
    }

    /** The progress effect, run whenever `isLoading` changes: a new generation starts at 0, and a
        finished one shows 100 and "Done!". */
    method LoadingEffect()
      requires Valid()
      modifies this
      ensures Valid()
      ensures isLoading ==> progress == 0 && loadingMessage == "Warming up the AI..."
      ensures !isLoading ==> progress == 100 && loadingMessage == "Done!"
      ensures generatedScripts == old(generatedScripts) && isLoading == old(isLoading) && error == old(error)
      ensures sortedLanguages == old(sortedLanguages) && defaultLanguage == old(defaultLanguage)
      ensures values == old(values) && issues == old(issues)
    {
      if isLoading {
        progress := 0;
        loadingMessage := "Warming up the AI...";
      } else {
        progress := 100;
        loadingMessage := "Done!";
      }
    }

    /** One tick of the interval, which exists only while loading. */
    method Tick()
      requires Valid() && isLoading
      modifies this
      ensures Valid()
      ensures progress == ProgressStep(old(progress)).progress
      ensures loadingMessage == ProgressStep(old(progress)).message
      ensures old(progress) <= Ceiling ==> progress <= Ceiling
      ensures generatedScripts == old(generatedScripts) && isLoading == old(isLoading) && error == old(error)
      ensures sortedLanguages == old(sortedLanguages) && defaultLanguage == old(defaultLanguage)
      ensures values == old(values) && issues == old(issues)
    {
      var next := ProgressStep(progress);
      progress := next.progress;
      loadingMessage := next.message;
    }

    /** A user edit of the form fields. */
    method Edit(v: FormValues)
      requires Valid()
      modifies this
      ensures Valid()
      ensures values == v
      ensures generatedScripts == old(generatedScripts) && isLoading == old(isLoading) && error == old(error)
      ensures sortedLanguages == old(sortedLanguages) && defaultLanguage == old(defaultLanguage)
      ensures progress == old(progress) && loadingMessage == old(loadingMessage) && issues == old(issues)
    {
      values := v;
    }

    /** The synchronous start of `onSubmit`. */
    method StartSubmit()
      requires Valid()
      modifies this
      ensures Valid()
      ensures isLoading && error.None? && generatedScripts.None?
      ensures SubmitDisabled()
      ensures sortedLanguages == old(sortedLanguages) && defaultLanguage == old(defaultLanguage)
      ensures progress == old(progress) && loadingMessage == old(loadingMessage)
      ensures values == old(values) && issues == old(issues)
    {
      isLoading := true;
      error := None;
      generatedScripts := None;
    }

    /** The rest of `onSubmit` once the flow has settled: the result is stored on success, the
        fixed message on failure, and loading ends either way. */
    method Settle(result: Result<GenerateReelScriptsOutput, string>)
      requires Valid() && isLoading
      modifies this
      ensures Valid()
      ensures !isLoading && !SubmitDisabled()
      ensures result.Success? ==> generatedScripts == Some(result.value) && error.None?
      ensures result.Failure? ==> error == Some(GenerationFailedMessage) && generatedScripts.None?
      ensures sortedLanguages == old(sortedLanguages) && defaultLanguage == old(defaultLanguage)
      ensures progress == old(progress) && loadingMessage == old(loadingMessage)
      ensures values == old(values) && issues == old(issues)
    {
      match result {
        case Success(output) =>
          generatedScripts := Some(output);
        case Failure(_) =>
          error := Some(GenerationFailedMessage);
      }
      isLoading := false;
    }

    /** `onSubmit` for validated `input`, with the model behind `prompt`; the progress effect runs
        when loading starts and when it ends. */
    method OnSubmit(input: GenerateReelScriptsInput, prompt: string -> ModelCall<GenerateReelScriptsOutput>)
      requires Valid()
      modifies this
      ensures Valid()
      ensures !isLoading && !SubmitDisabled() && progress == 100 && loadingMessage == "Done!"
      ensures var r := GenerateReelScripts(input, prompt);
        && (r.Success? ==> generatedScripts == Some(r.value) && error.None?)
        && (r.Failure? ==> error == Some(GenerationFailedMessage) && generatedScripts.None?)
      ensures sortedLanguages == old(sortedLanguages) && defaultLanguage == old(defaultLanguage)
      ensures values == old(values) && issues == old(issues)
    {
      StartSubmit();
      LoadingEffect();
      var result := GenerateReelScripts(input, prompt);
      Settle(result);
      LoadingEffect();
    }

    /** A click on the enabled submit button: the values are validated first; on failure only the
        issues are shown, otherwise the issues are cleared and `onSubmit` runs. */
    method HandleSubmit(prompt: string -> ModelCall<GenerateReelScriptsOutput>) returns (submitted: bool)
      requires Valid() && !SubmitDisabled()
      modifies this
      ensures Valid()
      ensures submitted <==> Accepts(old(values))
      ensures !submitted ==> issues == Issues(old(values))
      ensures !submitted ==> generatedScripts == old(generatedScripts) && error == old(error)
                             && isLoading == old(isLoading) && progress == old(progress)
                             && loadingMessage == old(loadingMessage)
      ensures submitted ==> issues == [] && !isLoading && !SubmitDisabled()
      ensures submitted ==> progress == 100 && loadingMessage == "Done!"
      ensures submitted ==> var r := GenerateReelScripts(Validate(old(values)).value, prompt);
        && (r.Success? ==> generatedScripts == Some(r.value) && error.None?)
        && (r.Failure? ==> error == Some(GenerationFailedMessage) && generatedScripts.None?)
      ensures values == old(values)
      ensures sortedLanguages == old(sortedLanguages) && defaultLanguage == old(defaultLanguage)
    {
      var checked := Validate(values);
      match checked
      case Failure(found) =>
        issues := found;
        submitted := false;
      case Success(input) =>
        issues := [];
        OnSubmit(input, prompt);
        submitted := true;
    }
  }

  /** The first submission after mounting: detection, the initial progress effect, then the
      submit; the submit button was enabled because nothing was loading. */
  method MountAndSubmit(browser: Browser, topic: string, prompt: string -> ModelCall<GenerateReelScriptsOutput>)
    returns (form: FormState, submitted: bool)
    ensures form.Valid() && !form.isLoading
    ensures form.defaultLanguage == DetectLanguage(browser)
    ensures form.sortedLanguages == SortLanguages(Some(form.defaultLanguage))
    ensures submitted <==> FormSchema.MinTopicLength <= Utf16Length(topic) <= FormSchema.MaxTopicLength
  {
    form := new FormState();
    form.DetectLanguageEffect(browser);
    form.LoadingEffect();
    assert !form.SubmitDisabled();
    form.Edit(form.values.(topic := topic));
    assert form.values.length == "30s" && form.values.language != "";
    assert "30s" in ReelSchema.LengthNames;
    submitted := form.HandleSubmit(prompt);
  }
}
