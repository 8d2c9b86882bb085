// The form's validation schema: what a submission must satisfy before the generation flow is
// called, and the messages shown for each failed rule.
module FormSchema {
  import opened Wrappers
  import opened ReelSchema
  import opened GenerateFlow
  import opened JsString

  /** The raw form fields, as the controls hold them. */
  datatype FormValues = FormValues(topic: string, length: string, language: string, tone: string, objective: string)

  /** `defaultValues`: the language starts empty until detection fills it in. */
  const DefaultValues: FormValues := FormValues("", "30s", "", "Motivational", "Increase engagement")

  const MinTopicLength: nat := 10
  const MaxTopicLength: nat := 250

  /** The schema's rules, read directly. The topic bounds are on JavaScript's `length`, which
      counts UTF-16 code units. Tone and objective need only be non-empty: they are not checked
      against the offered lists. */
  predicate Accepts(v: FormValues) {
    && MinTopicLength <= Utf16Length(v.topic) <= MaxTopicLength
    && v.length in LengthNames
    && v.language != "" && v.tone != "" && v.objective != ""
  }

  /** One failed rule. The enum rule has no custom message: its text is the validation library's
      own default. */
  datatype FormIssue = TopicTooShort | TopicTooLong | LengthNotOffered | LanguageMissing | ToneMissing | ObjectiveMissing

  function IssueMessage(issue: FormIssue): (message: Option<string>)
    ensures message.None? <==> issue == LengthNotOffered
  {
    match issue
    case TopicTooShort => Some("Topic needs more detail (min 10 chars).")
    case TopicTooLong => Some("Topic too long (max 250 chars).")
    case LengthNotOffered => None
    case LanguageMissing => Some("Please select a language.")
    case ToneMissing => Some("Please select a tone.")
    case ObjectiveMissing => Some("Please select an objective.")
  }

  /** `issue` when its rule failed, nothing otherwise. */
  function Report(failed: bool, issue: FormIssue): (r: seq<FormIssue>)
    ensures forall i :: i in r <==> failed && i == issue
    ensures |r| <= 1
  {
    if failed then [issue] else []
  }

  /** Every failed rule, in the schema's field order. */
  function Issues(v: FormValues): (issues: seq<FormIssue>)
    ensures TopicTooShort in issues <==> Utf16Length(v.topic) < MinTopicLength
    ensures TopicTooLong in issues <==> Utf16Length(v.topic) > MaxTopicLength
    ensures LengthNotOffered in issues <==> v.length !in LengthNames
    ensures LanguageMissing in issues <==> v.language == ""
    ensures ToneMissing in issues <==> v.tone == ""
    ensures ObjectiveMissing in issues <==> v.objective == ""
  {
    var n := Utf16Length(v.topic);
    Report(n < MinTopicLength, TopicTooShort)
    + Report(n > MaxTopicLength, TopicTooLong)
    + Report(ParseLength(v.length).None?, LengthNotOffered)
    + Report(v.language == "", LanguageMissing)
    + Report(v.tone == "", ToneMissing)
    + Report(v.objective == "", ObjectiveMissing)
  }

  /** A topic cannot be both too short and too long, so at most five rules fail at once. */
  lemma IssuesAtMostFive(v: FormValues)
    ensures |Issues(v)| <= 5
  {
    var n := Utf16Length(v.topic);
    assert |Report(n < MinTopicLength, TopicTooShort) + Report(n > MaxTopicLength, TopicTooLong)| <= 1;
  }

  /** No issue is reported exactly when the schema accepts. */
  lemma NoIssuesIffAccepted(v: FormValues)
    ensures Issues(v) == [] <==> Accepts(v)
  {
    if Issues(v) != [] {
      assert Issues(v)[0] in Issues(v);
    }
  }

  /** `form.handleSubmit` with the schema's resolver: the typed flow input when every rule holds,
      all the issues otherwise. */
  function Validate(v: FormValues): (r: Result<GenerateReelScriptsInput, seq<FormIssue>>)
    ensures r.Success? <==> Accepts(v)
    ensures r.Success? ==> && r.value.topic == v.topic && LengthName(r.value.length) == v.length
                           && r.value.language == v.language && r.value.tone == v.tone
                           && r.value.objective == v.objective
    ensures r.Failure? ==> r.error == Issues(v) && r.error != []
  {
    NoIssuesIffAccepted(v);
    var issues := Issues(v);
    if issues != [] then Failure(issues)
    else
      var length := ParseLength(v.length);
      Success(GenerateReelScriptsInput(v.topic, length.value, v.language, v.tone, v.objective))
  }

  /** The tones offered in the form. */
  const Tones: seq<string> := [
    "Humorous", "Witty", "Sarcastic", "Playful",
    "Motivational", "Inspirational", "Uplifting", "Empowering",
    "Educational", "Informative", "Authoritative", "Thought-provoking",
    "Dramatic", "Suspenseful", "Emotional", "Romantic",
    "Casual", "Friendly", "Conversational", "Authentic",
    "Formal", "Professional", "Polished",
    "Excited", "Energetic", "Passionate",
    "Calm", "Relaxing", "Soothing"]

  /** The objectives offered in the form. */
  const Objectives: seq<string> := [
    "Increase brand awareness", "Go viral", "Maximize reach",
    "Drive sales", "Promote a product/service", "Generate leads",
    "Educate audience", "Share tips/tutorials", "Explain a concept",
    "Build community", "Increase engagement", "Start a conversation",
    "Entertain viewers", "Tell a story", "Showcase creativity"]

  /** The default tone and objective are among the offered ones. */
  lemma DefaultChoicesOffered()
    ensures DefaultValues.tone in Tones && DefaultValues.objective in Objectives
  {
    assert Tones[4] == DefaultValues.tone;
    assert Objectives[10] == DefaultValues.objective;
  }

  /** A tone outside the offered list is still accepted. */
  lemma UnlistedToneAccepted()
    ensures var v := FormValues("Ten chars!", "15s", "English", "Grumpy", "Go viral");
      Accepts(v) && v.tone !in Tones
  {
    var v := FormValues("Ten chars!", "15s", "English", "Grumpy", "Go viral");
    assert Utf16Length(v.topic) == 10 by {
      assert forall i :: 0 <= i < |v.topic| ==> v.topic[i] as int < 128;
      Utf16LengthBmp(v.topic);
    }
    assert v.length == LengthNames[0];
    GrumpyNotOffered();
  }

  /** No offered tone starts with 'G', so "Grumpy" is not one of them. */
  lemma GrumpyNotOffered()
    ensures "Grumpy" !in Tones
  {
    assert forall i :: 0 <= i < |Tones| ==> Tones[i][0] != 'G';
  }

  /** The untouched form is rejected: its topic is empty, and so is its language until detection
      has run. */
  lemma DefaultValuesRejected()
    ensures Issues(DefaultValues) == [TopicTooShort, LanguageMissing]
    ensures Issues(DefaultValues.(language := "English")) == [TopicTooShort]
  {
    assert DefaultValues.length == LengthNames[1];
  }

  /** The topic bounds count UTF-16 code units: five clapperboard emoji (U+1F3AC, two units
      each) are long enough, and 126 of them are too long. */
  lemma TopicLengthInCodeUnits()
    ensures Accepts(FormValues(seq(5, _ => '\U{1F3AC}'), "15s", "English", "Casual", "Go viral"))
    ensures Issues(FormValues(seq(126, _ => '\U{1F3AC}'), "15s", "English", "Casual", "Go viral"))
      == [TopicTooLong]
  {
    AstralRunLength('\U{1F3AC}', 5);
    AstralRunLength('\U{1F3AC}', 126);
    assert "15s" == LengthNames[0];
  }
}
