/** The reel-length enumeration `z.enum(["15s", "30s", "60s", "90s"])`, declared identically by the
    generation input schema, the refinement input schema and the form schema. */
module ReelSchema {
  import opened Wrappers

  datatype ReelLength = Len15s | Len30s | Len60s | Len90s

  /** The enumeration's values, in declaration order. */
  const LengthNames: seq<string> := ["15s", "30s", "60s", "90s"]

  function LengthName(l: ReelLength): (name: string)
    ensures name in LengthNames
  {
    match l
    case Len15s => "15s"
    case Len30s => "30s"
    case Len60s => "60s"
    case Len90s => "90s"
  }

  /** What the enum schema accepts: exactly the four names, each read back as its length. */
  function ParseLength(s: string): (r: Option<ReelLength>)
    ensures r.Some? <==> s in LengthNames
    ensures r.Some? ==> LengthName(r.value) == s
  {
    if s == "15s" then Some(Len15s)
    else if s == "30s" then Some(Len30s)
    else if s == "60s" then Some(Len60s)
    else if s == "90s" then Some(Len90s)
    else None
  }

  lemma ParseLengthName(l: ReelLength)
    ensures ParseLength(LengthName(l)) == Some(l)
  {
  }
}
