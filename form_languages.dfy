// The language data of the reel generator form: the offered languages, the browser-language
// detection and `sortLanguages`, which puts the detected language first.
module FormLanguages {
  import opened Wrappers
  import opened JsString
  import opened JsArray

  const AllLanguages: seq<string> := [
    "English", "Spanish", "French", "German", "Portuguese", "Italian", "Dutch",
    "Russian", "Japanese", "Chinese (Simplified)", "Korean", "Arabic", "Hindi",
    "Bengali", "Telugu", "Tamil", "Marathi", "Gujarati", "Urdu", "Kannada",
    "Odia", "Malayalam"]

  const IndianLanguages: seq<string> := [
    "Hindi", "Bengali", "Telugu", "Tamil", "Marathi", "Gujarati", "Urdu", "Kannada",
    "Odia", "Malayalam"]

  const DefaultLanguage: string := "English"

  /** A cheap fingerprint of a name: its first character times 100 plus its length. It is a
      proof device only. Showing 22 names distinct directly means 231 string comparisons, which
      is too much for the verifier in one go. Instead, the fingerprints are listed once
      (`LanguageFingerprints`), checked name by name, and shown distinct as plain integers. */
  function Fingerprint(s: string): int {
    if s == [] then 0 else s[0] as int * 100 + |s|
  }

  /** The fingerprints of `AllLanguages`, in order, written out so that comparing them is
      integer arithmetic; `LanguageFingerprintsListed` checks each entry against its name. */
  const LanguageFingerprints: seq<int> := [
    6907, 8307, 7006, 7106, 8010, 7307, 6805, 8207, 7408, 6720, 7506,
    6506, 7205, 6607, 8406, 8405, 7707, 7108, 8504, 7507, 7904, 7709]

  /** Names with pairwise different fingerprints are pairwise different. */
  lemma FingerprintsDistinct(s: seq<string>, fs: seq<int>)
    requires |fs| == |s| && forall i :: 0 <= i < |s| ==> Fingerprint(s[i]) == fs[i]
    requires forall i, j :: 0 <= i < j < |fs| ==> fs[i] != fs[j]
    ensures Distinct(s)
  {
  }

  lemma LanguageFingerprintsListed()
    ensures |LanguageFingerprints| == |AllLanguages|
    ensures forall i :: 0 <= i < |AllLanguages| ==> Fingerprint(AllLanguages[i]) == LanguageFingerprints[i]
  {
  }

  lemma LanguageFingerprintsDistinct()
    ensures forall i, j :: 0 <= i < j < |LanguageFingerprints| ==> LanguageFingerprints[i] != LanguageFingerprints[j]
  {
  }

  /** The 22 offered languages are distinct. */
  lemma AllLanguagesDistinct()
    ensures |AllLanguages| == 22 && Distinct(AllLanguages)
  {
    LanguageFingerprintsListed();
    LanguageFingerprintsDistinct();
    FingerprintsDistinct(AllLanguages, LanguageFingerprints);
  }

  /** The Indian languages are the last ten offered languages. */
  lemma IndianLanguagesAreLastTen()
    ensures IndianLanguages == AllLanguages[12..]
  {
  }

  lemma IndianLanguagesDistinct()
    ensures |IndianLanguages| == 10 && Distinct(IndianLanguages)
  {
    AllLanguagesDistinct();
    IndianLanguagesAreLastTen();
    forall i, j | 0 <= i < j < |IndianLanguages| ensures IndianLanguages[i] != IndianLanguages[j] {
      assert IndianLanguages[i] == AllLanguages[i + 12] && IndianLanguages[j] == AllLanguages[j + 12];
    }
  }

  lemma IndianLanguagesOffered()
    ensures forall x :: x in IndianLanguages ==> x in AllLanguages
  {
    IndianLanguagesAreLastTen();
  }

  // ---- Detection ----

  /** `languageCodeMap`: primary language subtag to language name. */
  const LanguageCodeMap: map<string, string> := map[
    "en" := "English", "es" := "Spanish", "fr" := "French", "de" := "German",
    "pt" := "Portuguese", "it" := "Italian", "nl" := "Dutch", "ru" := "Russian",
    "ja" := "Japanese", "zh" := "Chinese (Simplified)", "ko" := "Korean", "ar" := "Arabic",
    "hi" := "Hindi", "bn" := "Bengali", "te" := "Telugu", "ta" := "Tamil",
    "mr" := "Marathi", "gu" := "Gujarati", "ur" := "Urdu", "kn" := "Kannada",
    "or" := "Odia", "ml" := "Malayalam"]

  /** What the page can see of the browser: no `navigator` at all (reading it throws), a
      `navigator` whose `language` is unset, or a language tag such as "hi-IN". */
  datatype Browser = NoNavigator | Navigator(language: Option<string>)

  /** The primary subtag of a tag: the part before the first `-`. */
  function PrimarySubtag(tag: string): (prefix: string)
    ensures '-' !in prefix
  {
    Split(tag, '-')[0]
  }

  /** The detection effect's choice: the mapped name of the primary subtag when the map has one
      that is an offered language, and "English" in every other case, including a thrown error. */
  function DetectLanguage(browser: Browser): string {
    match browser
    case NoNavigator => DefaultLanguage
    case Navigator(language) =>
      if language.None? then DefaultLanguage
      else
        var code := PrimarySubtag(language.value);
        if code != "" && code in LanguageCodeMap && LanguageCodeMap[code] != "" && LanguageCodeMap[code] in AllLanguages
        then LanguageCodeMap[code]
        else DefaultLanguage
  }

  /** Detection always yields an offered language: the mapped name of the primary subtag when
      the map has the subtag, and "English" otherwise. */
  lemma DetectLanguageChoice(browser: Browser)
    ensures DetectLanguage(browser) in AllLanguages
    ensures browser.Navigator? && browser.language.Some? && PrimarySubtag(browser.language.value) in LanguageCodeMap
      ==> DetectLanguage(browser) == LanguageCodeMap[PrimarySubtag(browser.language.value)]
    ensures !(browser.Navigator? && browser.language.Some? && PrimarySubtag(browser.language.value) in LanguageCodeMap)
      ==> DetectLanguage(browser) == DefaultLanguage
  {
    MappedNamesOffered();
  }

  /** Every name the map yields is non-empty and offered, so the `includes` check never rejects a
      mapped code. */
  lemma MappedNamesOffered()
    ensures "" !in LanguageCodeMap
    ensures forall code :: code in LanguageCodeMap ==> LanguageCodeMap[code] != "" && LanguageCodeMap[code] in AllLanguages
  {
  }

  /** A tag made of a known code, optionally followed by `-` and a region, detects the code's name. */
  lemma DetectKnownCode(code: string, region: string)
    requires code in LanguageCodeMap && '-' !in code
    requires region == [] || region[0] == '-'
    ensures DetectLanguage(Navigator(Some(code + region))) == LanguageCodeMap[code]
  {
    MappedNamesOffered();
    SplitFirstPart(code, region, '-');
  }

  /** "hi-IN" detects Hindi. */
  lemma DetectRegionalTag()
    ensures DetectLanguage(Navigator(Some("hi-IN"))) == "Hindi"
  {
    CodesMatchLanguages(12);
    assert LanguageCodes[12] == "hi" && AllLanguages[12] == "Hindi";
    assert "hi-IN" == "hi" + "-IN";
    DetectKnownCode("hi", "-IN");
  }

  /** An unknown code such as "xx" falls back to English. */
  lemma DetectUnknownCode()
    ensures DetectLanguage(Navigator(Some("xx"))) == "English"
  {
    assert PrimarySubtag("xx") == "xx" by {
      SplitFirstPart("xx", "", '-');
      assert "xx" + "" == "xx";
    }
    assert "xx" !in LanguageCodeMap;
  }

  /** Every offered language is reached by some browser tag. */
  lemma EveryLanguageDetectable(name: string)
    requires name in AllLanguages
    ensures exists tag :: DetectLanguage(Navigator(Some(tag))) == name
  {
    var code :| code in LanguageCodeMap && LanguageCodeMap[code] == name by {
      CodeForEveryLanguage(name);
    }
    assert '-' !in code;
    DetectKnownCode(code, "");
    assert code + "" == code;
  }

  /** The map's codes, listed in the order of `AllLanguages`. */
  const LanguageCodes: seq<string> := [
    "en", "es", "fr", "de", "pt", "it", "nl", "ru", "ja", "zh", "ko", "ar",
    "hi", "bn", "te", "ta", "mr", "gu", "ur", "kn", "or", "ml"]

  lemma CodeForEveryLanguage(name: string)
    requires name in AllLanguages
    ensures exists code :: code in LanguageCodeMap && '-' !in code && LanguageCodeMap[code] == name
  {
    var i :| 0 <= i < |AllLanguages| && AllLanguages[i] == name;
    CodesMatchLanguages(i);
  }

  lemma CodesMatchLanguages(i: int)
    requires 0 <= i < |AllLanguages|
    ensures |LanguageCodes| == |AllLanguages|
    ensures LanguageCodes[i] in LanguageCodeMap && '-' !in LanguageCodes[i]
    ensures LanguageCodeMap[LanguageCodes[i]] == AllLanguages[i]
  {
  }

  // ---- Ordering ----

  /** `detectedLang && allLanguages.includes(detectedLang) ? detectedLang : "English"`. */
  function DetectedLanguageName(detectedLang: Option<string>): string {
    if detectedLang.Some? && detectedLang.value != "" && detectedLang.value in AllLanguages
    then detectedLang.value else DefaultLanguage
  }

  /** The name `sortLanguages` puts first is always offered: the argument when it is offered,
      and "English" otherwise. */
  lemma DetectedLanguageNameChoice(detectedLang: Option<string>)
    ensures DetectedLanguageName(detectedLang) in AllLanguages
    ensures detectedLang.Some? && detectedLang.value in AllLanguages ==> DetectedLanguageName(detectedLang) == detectedLang.value
    ensures !(detectedLang.Some? && detectedLang.value in AllLanguages) ==> DetectedLanguageName(detectedLang) == DefaultLanguage
  {
  }

  /** `group.filter(lang => lang !== first)`. */
  function OthersInGroup(group: seq<string>, first: string): seq<string> {
    Filter(group, x => x != first)
  }

  /** `all.filter(lang => lang !== first && !group.includes(lang))`. */
  function OutsideGroup(all: seq<string>, group: seq<string>, first: string): seq<string> {
    Filter(all, x => x != first && x !in group)
  }

  /** `first`, then the other members of `group` sorted, then the remaining members of `all`
      sorted. */
  function Arrange(all: seq<string>, group: seq<string>, first: string): seq<string> {
    [first] + Sort(OthersInGroup(group, first)) + Sort(OutsideGroup(all, group, first))
  }

  /** `sortLanguages`: the detected language (or "English"), then the other Indian languages,
      then every other language. */
  function SortLanguages(detectedLang: Option<string>): seq<string> {
    Arrange(AllLanguages, IndianLanguages, DetectedLanguageName(detectedLang))
  }

  /** The members of each filtered part, with their multiplicities. */
  lemma ArrangeFilters(all: seq<string>, group: seq<string>, first: string)
    ensures forall x :: x in OthersInGroup(group, first) <==> x in group && x != first
    ensures forall x :: multiset(OthersInGroup(group, first))[x] == if x != first then multiset(group)[x] else 0
    ensures forall x :: x in OutsideGroup(all, group, first) <==> x in all && x != first && x !in group
    ensures forall x :: multiset(OutsideGroup(all, group, first))[x] == if x != first && x !in group then multiset(all)[x] else 0
  {
    FilterKeeps(group, x => x != first);
    FilterKeeps(all, x => x != first && x !in group);
  }

  /** For distinct lists with `group` inside `all`, the arrangement is a permutation of `all`. */
  lemma ArrangeIsPermutation(all: seq<string>, group: seq<string>, first: string)
    requires Distinct(all) && Distinct(group)
    requires forall x :: x in group ==> x in all
    requires first in all
    ensures multiset(Arrange(all, group, first)) == multiset(all)
    ensures Distinct(Arrange(all, group, first))
  {
    var others := OthersInGroup(group, first);
    var rest := OutsideGroup(all, group, first);
    ArrangeFilters(all, group, first);
    var r := Arrange(all, group, first);
    SortSorted(others);
    SortSorted(rest);
    DistinctMultiplicity(all);
    DistinctMultiplicity(group);
    assert multiset(r) == multiset{first} + multiset(others) + multiset(rest);
    forall x ensures multiset(r)[x] == multiset(all)[x] {
      if x == first {
        assert x in multiset(all);
      } else if x in group {
        assert x in multiset(group) && x in multiset(all);
      } else {
        assert x !in multiset(group);
      }
    }
    DistinctMultiplicity(r);
  }

  /** The arrangement in three pieces: `first`, the sorted other members of `group` (one fewer
      than `group` when `first` belongs to it), and the sorted rest. */
  lemma ArrangePieces(all: seq<string>, group: seq<string>, first: string)
    requires Distinct(group)
    ensures var r := Arrange(all, group, first);
      var k := |group| - (if first in group then 1 else 0);
      && 1 + k <= |r| && r[0] == first
      && r[1..1 + k] == Sort(OthersInGroup(group, first))
      && r[1 + k..] == Sort(OutsideGroup(all, group, first))
  {
    var others := OthersInGroup(group, first);
    ArrangeFilters(all, group, first);
    SortSorted(others);
    var k := |group| - (if first in group then 1 else 0);
    DistinctMultiplicity(group);
    assert multiset(group) == multiset(others) + (if first in group then multiset{first} else multiset{}) by {
      forall x ensures multiset(group)[x] == multiset(others)[x] + (if first in group then multiset{first} else multiset{})[x] {
        if x == first && first in group { assert x in multiset(group); }
      }
    }
    assert |Sort(others)| == |multiset(Sort(others))| == |multiset(others)| == k;
  }

  /** After `first` come the sorted other members of `group`. */
  lemma ArrangeGroupPart(all: seq<string>, group: seq<string>, first: string)
    requires Distinct(group)
    ensures var r := Arrange(all, group, first);
      var k := |group| - (if first in group then 1 else 0);
      && 1 + k <= |r| && r[0] == first
      && Sorted(r[1..1 + k]) && (forall i :: 1 <= i < 1 + k ==> r[i] in group && r[i] != first)
  {
    ArrangePieces(all, group, first);
    var r := Arrange(all, group, first);
    var k := |group| - (if first in group then 1 else 0);
    var part := Sort(OthersInGroup(group, first));
    ArrangeFilters(all, group, first);
    SortSorted(OthersInGroup(group, first));
    forall i | 1 <= i < 1 + k ensures r[i] in group && r[i] != first {
      assert r[i] == r[1..1 + k][i - 1] == part[i - 1];
      assert r[i] in multiset(part);
    }
  }

  /** Then the sorted members of `all` outside `group`. */
  lemma ArrangeRestPart(all: seq<string>, group: seq<string>, first: string)
    requires Distinct(group)
    ensures var r := Arrange(all, group, first);
      var k := |group| - (if first in group then 1 else 0);
      && 1 + k <= |r|
      && Sorted(r[1 + k..]) && (forall i :: 1 + k <= i < |r| ==> r[i] in all && r[i] !in group && r[i] != first)
  {
    ArrangePieces(all, group, first);
    var r := Arrange(all, group, first);
    var k := |group| - (if first in group then 1 else 0);
    var part := Sort(OutsideGroup(all, group, first));
    ArrangeFilters(all, group, first);
    SortSorted(OutsideGroup(all, group, first));
    forall i | 1 + k <= i < |r| ensures r[i] in all && r[i] !in group && r[i] != first {
      assert r[i] == r[1 + k..][i - 1 - k] == part[i - 1 - k];
      assert r[i] in multiset(part);
    }
  }

  /** `sortLanguages` returns the 22 languages, each once: a permutation of `allLanguages`... */
  lemma SortLanguagesIsPermutation(detectedLang: Option<string>)
    ensures multiset(SortLanguages(detectedLang)) == multiset(AllLanguages)
  {
    AllLanguagesDistinct();
    IndianLanguagesDistinct();
    IndianLanguagesOffered();
    DetectedLanguageNameChoice(detectedLang);
    ArrangeIsPermutation(AllLanguages, IndianLanguages, DetectedLanguageName(detectedLang));
  }

  /** ... with no duplicates. */
  lemma SortLanguagesDistinct(detectedLang: Option<string>)
    ensures Distinct(SortLanguages(detectedLang))
  {
    AllLanguagesDistinct();
    IndianLanguagesDistinct();
    IndianLanguagesOffered();
    DetectedLanguageNameChoice(detectedLang);
    ArrangeIsPermutation(AllLanguages, IndianLanguages, DetectedLanguageName(detectedLang));
  }

  /** The list starts with the detected language when it is offered, and with English otherwise
      (in particular when nothing was detected). */
  lemma SortLanguagesFirst(detectedLang: Option<string>)
    ensures SortLanguages(detectedLang)[0] ==
      if detectedLang.Some? && detectedLang.value in AllLanguages then detectedLang.value else "English"
  {
    DetectedLanguageNameChoice(detectedLang);
  }

  /** Entries `1..k` of `r` are members of `group` other than the first entry, in sorted order. */
  predicate GroupFollowsFirst(r: seq<string>, group: seq<string>, k: int) {
    && 0 <= k && 1 + k <= |r|
    && Sorted(r[1..1 + k])
    && (forall i :: 1 <= i < 1 + k ==> r[i] in group && r[i] != r[0])
  }

  /** The entries of `r` after position `k` are outside `group` and not the first entry, in
      sorted order. */
  predicate RestFollowsGroup(r: seq<string>, group: seq<string>, k: int) {
    && 0 <= k && 1 + k <= |r|
    && Sorted(r[1 + k..])
    && (forall i :: 1 + k <= i < |r| ==> r[i] !in group && r[i] != r[0])
  }

  /** `ArrangeGroupPart` for a group of known size `n` (`m` is one less). */
  lemma ArrangeGroupPartSized(all: seq<string>, group: seq<string>, first: string, m: nat, n: nat, r: seq<string>)
    requires Distinct(group) && |group| == n == m + 1
    requires r == Arrange(all, group, first)
    ensures GroupFollowsFirst(r, group, if r[0] in group then m else n)
  {
    ArrangeGroupPart(all, group, first);
  }

  /** `ArrangeRestPart` for a group of known size `n` (`m` is one less). */
  lemma ArrangeRestPartSized(all: seq<string>, group: seq<string>, first: string, m: nat, n: nat, r: seq<string>)
    requires Distinct(group) && |group| == n == m + 1
    requires r == Arrange(all, group, first)
    ensures RestFollowsGroup(r, group, if r[0] in group then m else n)
  {
    ArrangeGroupPart(all, group, first);
    ArrangeRestPart(all, group, first);
  }

  /** After the first entry come the other Indian languages, sorted: nine of them when the first
      entry is Indian, all ten otherwise. */
  lemma SortLanguagesIndianPart(detectedLang: Option<string>)
    ensures var r := SortLanguages(detectedLang);
      GroupFollowsFirst(r, IndianLanguages, if r[0] in IndianLanguages then 9 else 10)
  {
    IndianLanguagesDistinct();
    ArrangeGroupPartSized(AllLanguages, IndianLanguages, DetectedLanguageName(detectedLang), 9, 10,
      SortLanguages(detectedLang));
  }

  /** Then every remaining language, sorted, none of them Indian. */
  lemma SortLanguagesRemainingPart(detectedLang: Option<string>)
    ensures var r := SortLanguages(detectedLang);
      RestFollowsGroup(r, IndianLanguages, if r[0] in IndianLanguages then 9 else 10)
  {
    IndianLanguagesDistinct();
    ArrangeRestPartSized(AllLanguages, IndianLanguages, DetectedLanguageName(detectedLang), 9, 10,
      SortLanguages(detectedLang));
  }
}
