/** The two string built-ins the configuration and the form rely on: `String.prototype.trim`
    and `String.prototype.split` with a one-character separator. */
module JsString {

  /** The characters `trim` removes: ECMAScript WhiteSpace (TAB, VT, FF, SP, NBSP, ZWNBSP and every
      other Space_Separator) and LineTerminator (LF, CR, LS, PS). */
  predicate IsJsWhitespace(c: char) {
    || c == '\t' || c == '\U{B}' || c == '\U{C}' || c == ' ' || c == '\U{A0}' || c == '\U{FEFF}'
    || c == '\U{1680}' || ('\U{2000}' <= c <= '\U{200A}') || c == '\U{202F}' || c == '\U{205F}'
    || c == '\U{3000}'
    || c == '\n' || c == '\r' || c == '\U{2028}' || c == '\U{2029}'
  }

  /** `s` with its leading whitespace removed. */
  function TrimStart(s: string): (r: string)
    ensures |r| <= |s| && r == s[|s| - |r|..]
    ensures forall k :: 0 <= k < |s| - |r| ==> IsJsWhitespace(s[k])
    ensures r == [] || !IsJsWhitespace(r[0])
  {
    if s != [] && IsJsWhitespace(s[0]) then TrimStart(s[1..]) else s
  }

  /** `s` with its trailing whitespace removed. */
  function TrimEnd(s: string): (r: string)
    ensures |r| <= |s| && r == s[..|r|]
    ensures forall k :: |r| <= k < |s| ==> IsJsWhitespace(s[k])
    ensures r == [] || !IsJsWhitespace(r[|r| - 1])
  {
    if s != [] && IsJsWhitespace(s[|s| - 1]) then TrimEnd(s[..|s| - 1]) else s
  }

  /** `String.prototype.trim`: both ends stripped of whitespace; a string that neither starts
      nor ends with whitespace is returned unchanged. */
  function Trim(s: string): (r: string)
    ensures |r| <= |s|
    ensures r == [] || (!IsJsWhitespace(r[0]) && !IsJsWhitespace(r[|r| - 1]))
    ensures (s == [] || (!IsJsWhitespace(s[0]) && !IsJsWhitespace(s[|s| - 1]))) ==> r == s
  {
    TrimEnd(TrimStart(s))
  }

  /** What `Trim` removes is whitespace only: the result is an infix of `s`, and everything
      before and after it is whitespace. */
  lemma TrimIsInfix(s: string)
    ensures var i := |s| - |TrimStart(s)|;
      && i + |Trim(s)| <= |s|
      && Trim(s) == s[i..i + |Trim(s)|]
      && (forall k :: 0 <= k < i ==> IsJsWhitespace(s[k]))
      && (forall k :: i + |Trim(s)| <= k < |s| ==> IsJsWhitespace(s[k]))
  {
  }

  /** A string's `length` in JavaScript: the number of UTF-16 code units, where a character
      beyond U+FFFF takes two (a surrogate pair). */
  function Utf16Length(s: string): (n: nat)
    ensures |s| <= n <= 2 * |s|
  {
    if s == [] then 0 else (if s[0] as int > 0xFFFF then 2 else 1) + Utf16Length(s[1..])
  }

  /** On text within the Basic Multilingual Plane, `length` is the number of characters. */
  lemma {:induction false} Utf16LengthBmp(s: string)
    requires forall i :: 0 <= i < |s| ==> s[i] as int <= 0xFFFF
    ensures Utf16Length(s) == |s|
  {
    if s != [] {
      assert forall i :: 0 <= i < |s[1..]| ==> s[1..][i] == s[i + 1];
      Utf16LengthBmp(s[1..]);
    }
  }

  /** Text with a character beyond U+FFFF is longer in `length` than in characters. */
  lemma {:induction false} Utf16LengthAstral(s: string, k: nat)
    requires k < |s| && s[k] as int > 0xFFFF
    ensures Utf16Length(s) > |s|
  {
    if k > 0 {
      assert s[1..][k - 1] == s[k];
      Utf16LengthAstral(s[1..], k - 1);
    }
  }

  /** `n` copies of a character beyond U+FFFF have `length` 2n. */
  lemma {:induction false} AstralRunLength(c: char, n: nat)
    requires c as int > 0xFFFF
    ensures Utf16Length(seq(n, _ => c)) == 2 * n
  {
    if n > 0 {
      assert seq(n, _ => c)[1..] == seq(n - 1, _ => c);
      AstralRunLength(c, n - 1);
    }
  }

  /** `length` adds up over concatenation. */
  lemma {:induction false} Utf16LengthConcat(a: string, b: string)
    ensures Utf16Length(a + b) == Utf16Length(a) + Utf16Length(b)
  {
    if a != [] {
      assert (a + b)[0] == a[0] && (a + b)[1..] == a[1..] + b;
      Utf16LengthConcat(a[1..], b);
    } else {
      assert a + b == b;
    }
  }

  /** The inverse of `Split`: the parts glued together with the separator between neighbours. */
  function Join(parts: seq<string>, sep: char): string
    requires |parts| >= 1
  {
    if |parts| == 1 then parts[0] else parts[0] + [sep] + Join(parts[1..], sep)
  }

  /** `s.split(sep)` for a one-character separator: never empty (the empty string gives `[""]`),
      no part holds the separator, and joining the parts gives `s` back. */
  function Split(s: string, sep: char): (parts: seq<string>)
    ensures |parts| >= 1
    ensures forall i :: 0 <= i < |parts| ==> sep !in parts[i]
    ensures Join(parts, sep) == s
  {
    if s == [] then [[]]
    else
      var rest := Split(s[1..], sep);
      if s[0] == sep then
        assert ([[]] + rest)[1..] == rest;
        [[]] + rest
      else
        var parts := [[s[0]] + rest[0]] + rest[1..];
        assert parts[1..] == rest[1..];
        assert |rest| > 1 ==> Join(rest, sep) == rest[0] + [sep] + Join(rest[1..], sep);
        parts
  }

  /** The first part of a split is everything before the first separator. */
  lemma {:induction false} SplitFirstPart(head: string, rest: string, sep: char)
    requires sep !in head
    requires rest == [] || rest[0] == sep
    ensures Split(head + rest, sep)[0] == head
  {
    var s := head + rest;
    var parts := Split(s, sep);
    var h := parts[0];
    assert s[..|h|] == h && (|h| == |s| || s[|h|] == sep) by {
      if |parts| > 1 { assert s == h + ([sep] + Join(parts[1..], sep)); }
    }
    assert rest != [] ==> s[|head|] == sep;
    assert forall k :: 0 <= k < |h| ==> s[k] == h[k] != sep;
    assert forall k :: 0 <= k < |head| ==> s[k] == head[k] != sep;
    assert h == s[..|h|] == head;
  }

  /** Splitting and joining are inverse: a list of separator-free parts splits back to itself. */
  lemma {:induction false} SplitJoin(parts: seq<string>, sep: char)
    requires |parts| >= 1
    requires forall i :: 0 <= i < |parts| ==> sep !in parts[i]
    ensures Split(Join(parts, sep), sep) == parts
    decreases |parts|, |parts[0]|
  {
    var s := Join(parts, sep);
    if parts[0] == [] {
      if |parts| == 1 {
      } else {
        assert s == [sep] + Join(parts[1..], sep);
        assert s[1..] == Join(parts[1..], sep);
        SplitJoin(parts[1..], sep);
        assert parts == [[]] + parts[1..];
      }
    } else {
      var p0 := parts[0];
      var shorter := [p0[1..]] + parts[1..];
      assert shorter[1..] == parts[1..];
      assert forall i :: 0 <= i < |shorter| ==> sep !in shorter[i] by {
        forall i | 0 <= i < |shorter| ensures sep !in shorter[i] {
          if i == 0 { assert forall k :: 0 <= k < |p0[1..]| ==> p0[1..][k] == p0[k + 1]; }
          else { assert shorter[i] == parts[i]; }
        }
      }
      assert Join(shorter, sep) == s[1..] by {
        if |parts| == 1 { } else {
          assert s == p0 + [sep] + Join(parts[1..], sep);
          assert Join(shorter, sep) == p0[1..] + [sep] + Join(parts[1..], sep);
        }
      }
      SplitJoin(shorter, sep);
      assert s[0] == p0[0] != sep;
      assert [p0[0]] + p0[1..] == p0;
      assert parts == [p0] + parts[1..];
    }
  }
}
