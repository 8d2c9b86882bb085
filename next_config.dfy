// The `headers()` entry of the Next.js configuration: the CORS and framing headers sent on every
// path, derived from the ALLOWED_ORIGIN and ALLOWED_EMBEDDING_ORIGIN environment variables.
module NextConfig {
  import opened Wrappers
  import opened JsString

  datatype Header = Header(key: string, value: string)

  datatype HeaderRule = HeaderRule(source: string, headers: seq<Header>)

  /** `process.env.NAME || '*'`: an unset (`None`) or empty variable falls back to `*`. */
  function EnvOrStar(env: Option<string>): (v: string)
    ensures v != []
    ensures env.Some? && env.value != [] ==> v == env.value
    ensures env.None? || env.value == [] ==> v == "*"
  {
    if env.None? || env.value == [] then "*" else env.value
  }

  /** The longest prefix of `s` without `c`: everything before the first `c`. */
  function UpToFirst(s: string, c: char): (p: string)
    ensures |p| <= |s| && p == s[..|p|]
    ensures c !in p
    ensures |p| == |s| || s[|p|] == c
  {
    if s == [] || s[0] == c then [] else [s[0]] + UpToFirst(s[1..], c)
  }

  /** `allowedOrigins`: `['*']` for exactly `*`, otherwise every comma-separated part, trimmed. */
  function AllowedOrigins(allowedOrigin: string): (origins: seq<string>)
    ensures |origins| >= 1
    ensures allowedOrigin == "*" ==> origins == ["*"]
    ensures allowedOrigin != "*" ==> |origins| == |Split(allowedOrigin, ',')|
    ensures allowedOrigin != "*" ==>
      forall i :: 0 <= i < |origins| ==> origins[i] == Trim(Split(allowedOrigin, ',')[i])
    ensures forall i :: 0 <= i < |origins| ==> ',' !in origins[i]
  {
    if allowedOrigin == "*" then ["*"]
    else
      var parts := Split(allowedOrigin, ',');
      seq(|parts|, i requires 0 <= i < |parts| => Trim(parts[i]))
  }

  /** The text before the first comma is the first part of the split. */
  lemma FirstPartUpToComma(s: string)
    ensures Split(s, ',')[0] == UpToFirst(s, ',')
  {
    var p := UpToFirst(s, ',');
    var rest := s[|p|..];
    assert s == p + rest;
    assert rest != [] ==> rest[0] == s[|p|];
    SplitFirstPart(p, rest, ',');
  }

  /** `corsOriginHeaderValue`: the first allowed origin. It is the text before the first comma
      of the (defaulted) variable, trimmed: later origins never reach the header. */
  function CorsOriginHeaderValue(allowedOriginEnv: Option<string>): (v: string)
    ensures v == Trim(UpToFirst(EnvOrStar(allowedOriginEnv), ','))
    ensures ',' !in v
    ensures v == [] || (!IsJsWhitespace(v[0]) && !IsJsWhitespace(v[|v| - 1]))
  {
    var raw := EnvOrStar(allowedOriginEnv);
    var origins := AllowedOrigins(raw);
    assert origins[0] == Trim(UpToFirst(raw, ',')) by {
      if raw == "*" {
        assert UpToFirst(raw, ',') == "*";
      } else {
        FirstPartUpToComma(raw);
      }
    }
    origins[0]
  }

  /** An unset or empty ALLOWED_ORIGIN allows every origin. */
  lemma UnsetOriginAllowsAny(allowedOriginEnv: Option<string>)
    requires allowedOriginEnv.None? || allowedOriginEnv.value == ""
    ensures CorsOriginHeaderValue(allowedOriginEnv) == "*"
  {
    assert UpToFirst("*", ',') == "*";
  }

  /** Exactly `*` is kept as the single-entry list. */
  lemma StarOriginAllowsAny()
    ensures AllowedOrigins("*") == ["*"]
    ensures CorsOriginHeaderValue(Some("*")) == "*"
  {
    assert UpToFirst("*", ',') == "*";
  }

  /** The text before a first `c` is found wherever the rest of the text starts with `c`. */
  lemma {:induction false} UpToFirstOfConcat(a: string, b: string, c: char)
    requires c !in a
    requires b == [] || b[0] == c
    ensures UpToFirst(a + b, c) == a
  {
    if a != [] {
      assert (a + b)[1..] == a[1..] + b;
      UpToFirstOfConcat(a[1..], b, c);
    }
  }

  /** With several comma-separated origins the header carries only the first, trimmed. */
  lemma CorsOriginIsFirstListed(first: string, others: string)
    requires ',' !in first
    ensures CorsOriginHeaderValue(Some(first + "," + others)) == Trim(first)
  {
    assert first + "," + others == first + ("," + others);
    UpToFirstOfConcat(first, "," + others, ',');
  }

  /** A word padded by one space on either side trims back to the word. */
  lemma TrimSpacePadded(word: string)
    requires word != [] && !IsJsWhitespace(word[0]) && !IsJsWhitespace(word[|word| - 1])
    ensures Trim(" " + word + " ") == word
  {
    var padded := " " + word + " ";
    assert padded[1..] == word + " ";
    assert TrimStart(padded) == TrimStart(word + " ");
    assert TrimStart(word + " ") == word + " " by { assert (word + " ")[0] == word[0]; }
    assert (word + " ")[..|word|] == word;
    assert TrimEnd(word + " ") == TrimEnd(word);
  }

  /** A first origin written with one space on either side reaches the header without them. */
  lemma CorsOriginSpacePadded(first: string, others: string)
    requires ',' !in first
    requires first != [] && !IsJsWhitespace(first[0]) && !IsJsWhitespace(first[|first| - 1])
    ensures CorsOriginHeaderValue(Some(" " + first + " ," + others)) == first
  {
    assert " " + first + " ," + others == (" " + first + " ") + "," + others;
    CorsOriginIsFirstListed(" " + first + " ", others);
    TrimSpacePadded(first);
  }

  /** " a.com , b.com" yields "a.com". */
  lemma CorsOriginExample()
    ensures CorsOriginHeaderValue(Some(" a.com , b.com")) == "a.com"
  {
    var first, others := "a.com", " b.com";
    assert !IsJsWhitespace(first[0]) && !IsJsWhitespace(first[|first| - 1]);
    assert " " + first + " ," + others == " a.com , b.com";
    CorsOriginSpacePadded(first, others);
  }

  const AllowedMethods: string := "GET,OPTIONS,PATCH,DELETE,POST,PUT"
  const AllowedRequestHeaders: string :=
    "X-CSRF-Token, X-Requested-With, Accept, Accept-Version, Content-Length, Content-MD5, Content-Type, Date, X-Api-Version"

  /** The keys of the emitted headers, in order. */
  const HeaderKeys: seq<string> := [
    "Access-Control-Allow-Credentials",
    "Access-Control-Allow-Origin",
    "Access-Control-Allow-Methods",
    "Access-Control-Allow-Headers",
    "Content-Security-Policy"]

  /** `headers()`: one rule for every path, with the five headers in their fixed order. */
  function Headers(allowedOriginEnv: Option<string>, allowedEmbeddingEnv: Option<string>): (rules: seq<HeaderRule>)
    ensures |rules| == 1 && rules[0].source == "/:path*" && |rules[0].headers| == |HeaderKeys|
    ensures var h := rules[0].headers;
      (h[0].key, h[1].key, h[2].key, h[3].key, h[4].key)
      == (HeaderKeys[0], HeaderKeys[1], HeaderKeys[2], HeaderKeys[3], HeaderKeys[4])
    ensures var h := rules[0].headers;
      (h[0].value, h[1].value, h[2].value, h[3].value, h[4].value)
      == ("true", Trim(UpToFirst(EnvOrStar(allowedOriginEnv), ',')), AllowedMethods,
          AllowedRequestHeaders, "frame-ancestors " + EnvOrStar(allowedEmbeddingEnv))
  {
    [HeaderRule("/:path*", [
      Header(HeaderKeys[0], "true"),
      Header(HeaderKeys[1], CorsOriginHeaderValue(allowedOriginEnv)),
      Header(HeaderKeys[2], AllowedMethods),
      Header(HeaderKeys[3], AllowedRequestHeaders),
      Header(HeaderKeys[4], "frame-ancestors " + EnvOrStar(allowedEmbeddingEnv))])]
  }

  /** The framing policy carries a set embedding origin verbatim, however it is spelled. */
  lemma EmbeddingOriginVerbatim(allowedOriginEnv: Option<string>, embedding: string)
    requires embedding != ""
    ensures Headers(allowedOriginEnv, Some(embedding))[0].headers[4] ==
      Header("Content-Security-Policy", "frame-ancestors " + embedding)
  {
  }
}
