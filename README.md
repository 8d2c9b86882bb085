# Reel script generator: a verified model of its core

The application is a Next.js page where a user describes an Instagram reel (topic, length,
language, tone, objective) and a hosted text model writes five scripts. A second flow refines
one script. This project models the logic around the model call and proves properties of it.
The model call itself is an oracle parameter.

- **The form** (`src/components/reel-generator-form.tsx`):
  - the ordering of the 22 offered languages (`sortLanguages`);
  - browser-language detection through `languageCodeMap`;
  - the validation schema;
  - the progress step shown while loading;
  - the component state as a class (`ReelGeneratorForm.FormState`), with the detection effect,
    the progress effect, `onSubmit` and the submit handler as methods;
  - which result panel is rendered, and the disabled submit button.
- **The generation flow** (`src/ai/flows/generate-reel-scripts.ts`):
  - the input and output schemas;
  - rendering the prompt template's five field lines;
  - the flow body, which rejects a missing output and only warns about a count other than five;
  - the delegating export.
- **The refinement flow** (`src/ai/flows/refine-script-flow.ts`):
  - the input schema's length enum;
  - the output check;
  - the global removal of `**`, with its idempotence, its star-run description, and the proof
    that it deletes only `*` characters.
- **The headers** (`next.config.ts`): `headers()`, built from the ALLOWED_ORIGIN and
  ALLOWED_EMBEDDING_ORIGIN environment variables, which are passed in as optional strings.

Shared pieces:

- JavaScript's `split`/`trim` live in `JsString`.
- `filter`, the default `sort` comparator and distinctness live in `JsArray`.
- The length enum lives in `ReelSchema`.
- `undefined`/`null` is `Option` and a promise's outcome is `Result` (`Wrappers`).
- A model call is `ModelOracle.ModelCall`: it either throws, or resolves with an output that may
  be missing.

The code keeps no per-script refinement state and no stale-request tokens. It does not strip
hashtags or trim scripts, and it does not fail on a wrong script count; the model does exactly
what the code does.

## Model

| member | source | states |
|---|---|---|
| JsString.Trim | next.config.ts:27 | the result is no longer than the input, starts and ends with non-whitespace, and is the input itself when that already has no whitespace at its ends |
| JsString.TrimIsInfix | next.config.ts:27 | the trimmed text is a contiguous infix of the input, and everything removed before and after it is ECMAScript whitespace |
| JsString.Split | next.config.ts:27 | `split` on one character yields at least one part, no part contains the separator, and joining the parts with it gives the input back |
| JsString.SplitJoin | next.config.ts:27 | splitting the join of separator-free parts gives back exactly those parts |
| JsString.SplitFirstPart | src/components/reel-generator-form.tsx:158 | the first part of a split is the text before the first separator |
| JsString.TrimStart | next.config.ts:27 | the result is a suffix of the input, everything removed is whitespace, and the result does not start with whitespace |
| JsString.TrimEnd | next.config.ts:27 | the result is a prefix of the input, everything removed is whitespace, and the result does not end with whitespace |
| JsString.Utf16Length | src/components/reel-generator-form.tsx:102 | JavaScript's `length`: between the number of characters and twice that; `JsString.Utf16LengthBmp`, `JsString.Utf16LengthAstral` and `JsString.Utf16LengthConcat` pin it down |
| JsString.Utf16LengthBmp | src/components/reel-generator-form.tsx:102 | on text with no character beyond U+FFFF, `length` is the number of characters |
| JsString.Utf16LengthAstral | src/components/reel-generator-form.tsx:102 | text holding a character beyond U+FFFF has a `length` greater than its number of characters |
| JsString.Utf16LengthConcat | src/components/reel-generator-form.tsx:102 | `length` adds up over concatenation |
| JsString.AstralRunLength | src/components/reel-generator-form.tsx:102 | n copies of a character beyond U+FFFF have `length` 2n |
| JsArray.PrecedesTotal | src/components/reel-generator-form.tsx:88 | any two strings are comparable in the default sort order |
| JsArray.PrecedesAntisymmetric | src/components/reel-generator-form.tsx:88 | strings that precede each other are equal |
| JsArray.PrecedesTransitive | src/components/reel-generator-form.tsx:88 | the default sort order is transitive |
| JsArray.InsertPermutes | src/components/reel-generator-form.tsx:88 | insertion adds exactly one occurrence of the inserted string |
| JsArray.InsertSorted | src/components/reel-generator-form.tsx:88 | inserting into a sorted list keeps it sorted |
| JsArray.SortSorted | src/components/reel-generator-form.tsx:85-93 | `sort()` returns a sorted permutation of its input |
| JsArray.SortedPermutationUnique | src/components/reel-generator-form.tsx:85-93 | two sorted permutations of one list are equal, so the result does not depend on which correct sort the engine uses |
| JsArray.FilterKeeps | src/components/reel-generator-form.tsx:85-87 | `filter` never lengthens the list; it keeps exactly the accepted elements, each as often as it occurs |
| JsArray.Insert | src/components/reel-generator-form.tsx:88 | one insertion step of the sort; `JsArray.InsertPermutes` and `JsArray.InsertSorted` carry its contract |
| JsArray.Sort | src/components/reel-generator-form.tsx:85-93 | `Array.prototype.sort()` with the default comparator; `JsArray.SortSorted` (sorted, a permutation) and `JsArray.SortedPermutationUnique` (the only such list) carry its contract |
| JsArray.Filter | src/components/reel-generator-form.tsx:85-87 | `Array.prototype.filter`; `JsArray.FilterKeeps` carries its contract |
| JsArray.DistinctMultiplicity | src/components/reel-generator-form.tsx:45-50 | a list has no duplicates exactly when every element occurs at most once |
| JsArray.SameElementsPermutation | src/components/reel-generator-form.tsx:83-95 | two duplicate-free lists with the same elements are permutations of each other |
| ReelSchema.LengthName | src/ai/flows/generate-reel-scripts.ts:16 | every length value has one of the four enum names |
| ReelSchema.ParseLength | src/ai/flows/refine-script-flow.ts:17 | the enum accepts a string exactly when it is one of "15s", "30s", "60s", "90s", and reads it back as the length with that name |
| ReelSchema.ParseLengthName | src/ai/flows/generate-reel-scripts.ts:16 | parsing a length's name gives back that length |
| GenerateFlow.PromptShowsField | src/ai/flows/generate-reel-scripts.ts:56-69 | in the rendered prompt, each of the five fields is a whole line that begins with its label and ends with the field's value; the lines come in template order after the fixed preamble |
| GenerateFlow.RenderPrompt | src/ai/flows/generate-reel-scripts.ts:56-69 | the rendered template; `GenerateFlow.PromptShowsField` and `GenerateFlow.PromptFieldsComplete` carry its contract |
| GenerateFlow.TemplateShowsField | src/ai/flows/generate-reel-scripts.ts:62-66 | the same for any preamble ending a line, any field list and any closing text |
| GenerateFlow.TemplateAroundField | src/ai/flows/generate-reel-scripts.ts:62-66 | the template splits around each field's line, and the text before that line ends a line |
| GenerateFlow.PromptFieldsComplete | src/ai/flows/generate-reel-scripts.ts:62-66 | all five input fields are interpolated |
| GenerateFlow.GenerateReelScriptsFlow | src/ai/flows/generate-reel-scripts.ts:82-95 | it succeeds exactly when the model resolves with an output, and then returns that output unchanged. A thrown call rejects with its own error and a missing output with the fixed message. A warning is logged exactly when a returned output does not have five scripts, and it carries the count received |
| GenerateFlow.GenerateReelScripts | src/ai/flows/generate-reel-scripts.ts:33-35 | the export is the flow's outcome for the same input: success exactly when the model produced an output, with that value |
| RefineFlow.StripBold | src/ai/flows/refine-script-flow.ts:79 | removing `**` never lengthens the text |
| RefineFlow.StripBoldLeavesNoMarker | src/ai/flows/refine-script-flow.ts:78-79 | no `**` is left after the replacement |
| RefineFlow.StripBoldKeepsBoldFree | src/ai/flows/refine-script-flow.ts:79-80 | a text without `**` is returned unchanged |
| RefineFlow.StripBoldIdempotent | src/ai/flows/refine-script-flow.ts:79 | cleaning twice is the same as cleaning once |
| RefineFlow.StripBoldDeletesOnlyStars | src/ai/flows/refine-script-flow.ts:79 | only `*` characters are deleted: the other characters survive in order |
| RefineFlow.StripBoldStarRun | src/ai/flows/refine-script-flow.ts:79 | a run of k stars ahead of a non-star becomes k mod 2 stars |
| RefineFlow.StripBoldCollapsesStarRuns | src/ai/flows/refine-script-flow.ts:79 | the replacement equals the independent description that shrinks every maximal run of k stars to k mod 2 stars |
| RefineFlow.MarkersOnlyCleanToEmpty | src/ai/flows/refine-script-flow.ts:79 | a text made only of `**` pairs cleans to the empty text |
| RefineFlow.RefineScriptFlow | src/ai/flows/refine-script-flow.ts:73-81 | it succeeds exactly when the model answers with a present, non-empty `refinedScript`, and then returns that text with `**` removed, holding no `**`. A thrown call rejects with its own error and every other failure with the fixed message |
| RefineFlow.MarkersOnlyAnswerRefinesToEmpty | src/ai/flows/refine-script-flow.ts:75-80 | an answer made only of `**` pairs passes the emptiness check, which runs before cleaning, and comes back as the empty script |
| RefineFlow.RefineScript | src/ai/flows/refine-script-flow.ts:30-32 | the export is the flow's outcome for the same input, and a successful script holds no `**` |
| NextConfig.EnvOrStar | next.config.ts:23-24 | `x \|\| '*'`: a set, non-empty variable is kept, and an unset or empty one becomes `*` |
| NextConfig.UpToFirst | next.config.ts:35 | the result is the longest prefix without the character: it does not contain it, and the input ends or holds the character right after it |
| NextConfig.AllowedOrigins | next.config.ts:27 | exactly `*` gives `['*']`; any other value gives one trimmed entry per comma-separated part, in order; no entry contains a comma |
| NextConfig.FirstPartUpToComma | next.config.ts:27-35 | the first part of the comma split is the text before the first comma |
| NextConfig.CorsOriginHeaderValue | next.config.ts:23-35 | the origin header is the defaulted variable's text before its first comma, trimmed; it holds no comma and has no whitespace at its ends |
| NextConfig.UnsetOriginAllowsAny | next.config.ts:23-35 | an unset or empty ALLOWED_ORIGIN gives `*` |
| NextConfig.StarOriginAllowsAny | next.config.ts:27-35 | exactly `*` gives the list `['*']` and the header `*` |
| NextConfig.CorsOriginIsFirstListed | next.config.ts:27-35 | with several origins, only the first reaches the header, trimmed |
| NextConfig.TrimSpacePadded | next.config.ts:27 | a word with one space on either side trims back to the word |
| NextConfig.CorsOriginSpacePadded | next.config.ts:27-35 | a first origin padded by single spaces reaches the header without them |
| NextConfig.CorsOriginExample | next.config.ts:27-35 | " a.com , b.com" gives "a.com" |
| NextConfig.Headers | next.config.ts:37-58 | exactly one rule, for `/:path*`, holding the five headers in order: credentials `true`, the origin, the fixed methods, the fixed request headers, and `frame-ancestors ` followed by the defaulted embedding origin |
| NextConfig.EmbeddingOriginVerbatim | next.config.ts:52 | a set embedding origin is copied into the framing policy verbatim |
| FormLanguages.AllLanguagesDistinct | src/components/reel-generator-form.tsx:45-50 | 22 languages are offered, with no duplicates |
| FormLanguages.IndianLanguagesAreLastTen | src/components/reel-generator-form.tsx:45-55 | the Indian languages are the last ten offered ones, in the same order |
| FormLanguages.IndianLanguagesDistinct | src/components/reel-generator-form.tsx:52-55 | ten Indian languages, with no duplicates |
| FormLanguages.IndianLanguagesOffered | src/components/reel-generator-form.tsx:45-55 | every Indian language is offered |
| FormLanguages.MappedNamesOffered | src/components/reel-generator-form.tsx:58-81 | the empty code is not in the map, and every mapped name is non-empty and offered |
| FormLanguages.PrimarySubtag | src/components/reel-generator-form.tsx:158 | the primary subtag contains no `-` |
| FormLanguages.DetectLanguageChoice | src/components/reel-generator-form.tsx:155-166 | detection always yields an offered language: the mapped name when the tag's primary subtag is in the map, and "English" when it is not, when `language` is unset, and when `navigator` is missing |
| FormLanguages.DetectLanguage | src/components/reel-generator-form.tsx:155-166 | the detection effect's choice of name; `FormLanguages.DetectLanguageChoice`, `FormLanguages.DetectKnownCode`, `FormLanguages.DetectRegionalTag`, `FormLanguages.DetectUnknownCode` and `FormLanguages.EveryLanguageDetectable` carry its contract |
| FormLanguages.DetectKnownCode | src/components/reel-generator-form.tsx:158-161 | a known code, alone or followed by `-` and a region, detects the code's language |
| FormLanguages.DetectRegionalTag | src/components/reel-generator-form.tsx:158-161 | "hi-IN" detects Hindi |
| FormLanguages.DetectUnknownCode | src/components/reel-generator-form.tsx:158-166 | "xx" falls back to English |
| FormLanguages.CodesMatchLanguages | src/components/reel-generator-form.tsx:58-81 | the map's codes, listed in offered order, map to the offered language at the same index |
| FormLanguages.CodeForEveryLanguage | src/components/reel-generator-form.tsx:58-81 | every offered language has a code in the map |
| FormLanguages.EveryLanguageDetectable | src/components/reel-generator-form.tsx:155-166 | every offered language is detected from some browser tag |
| FormLanguages.DetectedLanguageNameChoice | src/components/reel-generator-form.tsx:84 | the name `sortLanguages` puts first is always offered: the argument when it is offered, and "English" otherwise |
| FormLanguages.DetectedLanguageName | src/components/reel-generator-form.tsx:84 | the `detectedLangName` ternary; `FormLanguages.DetectedLanguageNameChoice` carries its contract |
| FormLanguages.ArrangeFilters | src/components/reel-generator-form.tsx:85-87 | the two filtered parts hold exactly the other group members and the members outside the group, with their multiplicities |
| FormLanguages.ArrangeIsPermutation | src/components/reel-generator-form.tsx:83-95 | for duplicate-free lists with the group inside the whole list and the first name offered, the arrangement is a duplicate-free permutation of the whole list |
| FormLanguages.ArrangePieces | src/components/reel-generator-form.tsx:89-93 | the arrangement is the first name, then the sorted other group members (one fewer than the group when the first name belongs to it), then the sorted rest |
| FormLanguages.ArrangeGroupPart | src/components/reel-generator-form.tsx:85-92 | after the first name come the other group members, sorted |
| FormLanguages.ArrangeRestPart | src/components/reel-generator-form.tsx:86-93 | then come the members outside the group, sorted, none of them the first name |
| FormLanguages.ArrangeGroupPartSized | src/components/reel-generator-form.tsx:85-92 | for a group of n distinct names: the next n - 1 entries when the first name is in the group, n otherwise, are group members other than the first, sorted |
| FormLanguages.ArrangeRestPartSized | src/components/reel-generator-form.tsx:86-93 | for a group of n distinct names: everything after those entries lies outside the group and is not the first name, sorted |
| FormLanguages.SortLanguagesIsPermutation | src/components/reel-generator-form.tsx:83-95 | `sortLanguages` returns a permutation of the 22 offered languages |
| FormLanguages.SortLanguages | src/components/reel-generator-form.tsx:83-95 | `sortLanguages`; `FormLanguages.SortLanguagesIsPermutation`, `FormLanguages.SortLanguagesDistinct`, `FormLanguages.SortLanguagesFirst`, `FormLanguages.SortLanguagesIndianPart` and `FormLanguages.SortLanguagesRemainingPart` carry its contract |
| FormLanguages.SortLanguagesDistinct | src/components/reel-generator-form.tsx:83-95 | with no duplicates |
| FormLanguages.SortLanguagesFirst | src/components/reel-generator-form.tsx:84-91 | it starts with the argument when that is offered, and with "English" otherwise, including for `null` |
| FormLanguages.SortLanguagesIndianPart | src/components/reel-generator-form.tsx:85-92 | next come the Indian languages other than the first entry, sorted: nine of them when the first entry is Indian, ten otherwise |
| FormLanguages.SortLanguagesRemainingPart | src/components/reel-generator-form.tsx:86-93 | then every remaining language, sorted, none of them Indian or the first entry |
| FormSchema.IssueMessage | src/components/reel-generator-form.tsx:101-107 | every rule has its own custom message except the length enum |
| FormSchema.Report | src/components/reel-generator-form.tsx:101-107 | one rule's report lists its issue exactly when the rule failed |
| FormSchema.Issues | src/components/reel-generator-form.tsx:101-107 | each issue is reported exactly when its rule fails: topic `length` (in UTF-16 code units) under 10 or over 250, length not in the enum, language, tone or objective empty |
| FormSchema.IssuesAtMostFive | src/components/reel-generator-form.tsx:102 | at most five issues at once, since a topic cannot be too short and too long |
| FormSchema.NoIssuesIffAccepted | src/components/reel-generator-form.tsx:101-107 | no issue is reported exactly when the schema accepts |
| FormSchema.Validate | src/components/reel-generator-form.tsx:101-107 | validation succeeds exactly when the schema accepts, and then carries the same field values, with the length parsed; otherwise it fails with the non-empty issue list |
| FormSchema.DefaultChoicesOffered | src/components/reel-generator-form.tsx:109-150 | the default tone and objective are among the offered ones |
| FormSchema.UnlistedToneAccepted | src/components/reel-generator-form.tsx:105 | a tone that is not offered is still accepted |
| FormSchema.GrumpyNotOffered | src/components/reel-generator-form.tsx:109-150 | "Grumpy" is not among the offered tones |
| FormSchema.TopicLengthInCodeUnits | src/components/reel-generator-form.tsx:102 | the topic bounds count UTF-16 code units: five U+1F3AC characters (10 units) pass, and 126 of them (252 units) are too long |
| FormSchema.Accepts | src/components/reel-generator-form.tsx:101-107 | the schema as a predicate; `FormSchema.NoIssuesIffAccepted` and `FormSchema.Validate` state that it holds exactly when no rule fails, `FormSchema.UnlistedToneAccepted` and `FormSchema.TopicLengthInCodeUnits` give examples |
| FormSchema.DefaultValuesRejected | src/components/reel-generator-form.tsx:145-150 | the default values fail on the topic and the language; once detection sets the language, only the topic issue remains |
| FormProgress.ProgressStep | src/components/reel-generator-form.tsx:188-201 | from a value of at most 99 the next is at most 99; the step strictly increases anything below 99, keeps 99 at 99, keeps non-negative values non-negative, and adds at most 5 |
| FormProgress.AdvanceInRange | src/components/reel-generator-form.tsx:187-203 | any number of ticks keeps progress within 0..99 |
| FormProgress.Advance | src/components/reel-generator-form.tsx:187-203 | the progress after n interval ticks; `FormProgress.AdvanceInRange`, `FormProgress.AdvanceReachesCeiling`, `FormProgress.AdvanceMonotone`, `FormProgress.AdvanceSplit`, `FormProgress.AdvanceFromZero` and `FormProgress.TicksToCeiling` carry its contract |
| FormProgress.AdvanceReachesCeiling | src/components/reel-generator-form.tsx:187-203 | from p in 0..99, 99 is reached within 99 - p ticks and then kept |
| FormProgress.AdvanceMonotone | src/components/reel-generator-form.tsx:187-203 | more ticks never show less progress |
| FormProgress.AdvanceMonotoneFrom | src/components/reel-generator-form.tsx:187-203 | ticking never lowers progress |
| FormProgress.AdvanceSplit | src/components/reel-generator-form.tsx:187-203 | m ticks followed by n more ticks are m + n ticks |
| FormProgress.AdvanceFromZero | src/components/reel-generator-form.tsx:188-201 | the value after k <= 31 ticks from 0 follows the bands: 5k up to 30, then +4 per tick up to 70, +2 up to 96, then +1 |
| FormProgress.TicksToCeiling | src/components/reel-generator-form.tsx:185-203 | starting from 0, progress is below 99 for the first 31 ticks and exactly 99 from the 32nd on |
| ReelGeneratorForm.VisiblePanels | src/components/reel-generator-form.tsx:440-535 | the error panel shows exactly when the error is set and non-empty; the loading panel exactly while loading; the results exactly when not loading with a non-empty script list; the initial panel exactly when not loading with no scripts and no error shown |
| ReelGeneratorForm.AtMostOnePanel | src/components/reel-generator-form.tsx:440-535 | in any consistent state at most one panel shows, and none only when an empty script list came back |
| ReelGeneratorForm.ErrorAndLoadingExclusive | src/components/reel-generator-form.tsx:440-535 | the error and loading panels never show together |
| ReelGeneratorForm.FormState.constructor | src/components/reel-generator-form.tsx:129-152 | the state starts consistent: no scripts, not loading, no error, the languages sorted for `null`, "English" as the default, progress 0 with "Initializing...", the default form values and no issues |
| ReelGeneratorForm.FormState.ShowLanguagesFor | src/components/reel-generator-form.tsx:169-170 | the default language becomes the name and the list is arranged for it; nothing else changes |
| ReelGeneratorForm.FormState.DetectLanguageEffect | src/components/reel-generator-form.tsx:155-179 | the detected language becomes the default, the list is arranged for it, and the form's language field is set to it with the other values kept and the issues cleared; the rest of the state is unchanged |
| ReelGeneratorForm.FormState.LoadingEffect | src/components/reel-generator-form.tsx:182-212 | while loading, progress resets to 0 with "Warming up the AI..."; otherwise it becomes 100 with "Done!"; nothing else changes |
| ReelGeneratorForm.FormState.Tick | src/components/reel-generator-form.tsx:187-203 | one interval tick applies the progress step and its message, keeping progress at most 99 |
| ReelGeneratorForm.FormState.Edit | src/components/reel-generator-form.tsx:266-293 | a user edit replaces the field values and nothing else |
| ReelGeneratorForm.FormState.StartSubmit | src/components/reel-generator-form.tsx:215-217 | loading starts, so the submit button (`disabled={isLoading}` at line 405) becomes disabled, and the error and the scripts are cleared |
| ReelGeneratorForm.FormState.Settle | src/components/reel-generator-form.tsx:219-238 | loading ends either way, which enables the submit button again. Success stores the result and leaves no error. Failure stores the fixed message and leaves no scripts |
| ReelGeneratorForm.FormState.OnSubmit | src/components/reel-generator-form.tsx:214-239 | after `onSubmit`, loading has ended, the submit button is enabled again, and the progress effect shows 100 and "Done!". The state holds the flow's result, or the fixed message when the flow failed. The languages and the form values are untouched |
| ReelGeneratorForm.FormState.HandleSubmit | src/components/reel-generator-form.tsx:266 | a click is accepted only while the button is enabled (`requires !SubmitDisabled()`, from line 405), so no second submission starts while one is loading. The click submits exactly when the values pass the schema. A rejected click only shows the issues and changes nothing else. An accepted one clears the issues and runs `onSubmit` on the validated input, leaving the flow's result or the fixed message, progress 100 with "Done!", and the button enabled |
| ReelGeneratorForm.MountAndSubmit | src/components/reel-generator-form.tsx:155-179 | after mounting, detecting and typing a topic, the first click submits exactly when the topic's JavaScript `length` (UTF-16 code units) is 10 to 250, and the list is arranged for the detected language |

## Left out

- The hosted model call is an oracle parameter (`prompt`). The generation oracle takes the rendered prompt text; the refinement oracle takes the flow input, because the refinement template is not rendered. The Genkit configuration in `src/ai/ai-instance.ts` is not part of this model.
- Genkit's own schema enforcement is not modelled beyond the predicates stated here. In particular, the length-5 output schema is not enforced: the oracle may return any number of scripts, which is the case the flow's warning is written for.
- Handlebars rendering is modelled only as interpolation of the five fields between the template's fixed texts. HTML escaping is not modelled; the triple braces disable it anyway.
- GenerateFlow.GenerateReelScriptsFlow: an output whose `scripts` field is absent cannot be expressed, since the output type always has a list. Such an output would warn with an undefined count.
- Console output: only the generation flow's warning about a script count other than five (`src/ai/flows/generate-reel-scripts.ts:89`) is modelled, as an entry in the flow's list of warnings, without its text. The form's `console.warn` when detection throws (`src/components/reel-generator-form.tsx:163`) and its `console.error` when generation fails (`src/components/reel-generator-form.tsx:229`) are not modelled; neither changes the component state.
- Timers and React scheduling are not modelled: `setInterval`/`clearInterval`, effect ordering, batching of state updates, and the interleaving of ticks with the awaited flow. The progress effect is a method the caller runs when loading changes, and a tick is a separate method.
- Toasts, clipboard copying, framer-motion animation and JSX layout have no effect on the modelled state. The UI component files are not part of this model.
- The default `sort` comparator orders strings by their UTF-16 code units. `JsArray.Precedes` orders by characters (Unicode scalar values). The two orders differ only between a character beyond U+FFFF and one in U+E000..U+FFFF. No language name has either, so on the lists the form sorts `Precedes` is exactly the engine's order.
- Sorting the tones and objectives in place during render changes only their display order, so it is not modelled. The lists are constants.
- Object-prototype keys such as "constructor" would be found by the JavaScript map lookup. They are not modelled: the map is exactly its 22 entries.
- A `navigator` access that throws is modelled as a browser without `navigator`. An unset `language` is modelled as `None`.
- FormSchema.IssueMessage: the length enum's failure text is the validation library's default message, so the model carries no text for it.
- Re-validation while the user types is not modelled. Validation runs on submit, in `HandleSubmit`.
- ReelGeneratorForm.FormState.DetectLanguageEffect: the postcondition does not repeat that the detected language is listed first. `FormLanguages.SortLanguagesFirst` together with `FormLanguages.DetectLanguageChoice` states that about the same list.
