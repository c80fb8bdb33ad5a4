/**
 * The few ECMAScript string built-ins the authentication core relies on.
 * A Dafny `string` stands for a JavaScript string, one element per Unicode
 * scalar value: the two are the same for text within the Basic Multilingual
 * Plane, and `s.length` counts a character outside it twice where `|s|`
 * counts it once.
 */
module JsString {
  import opened Base

  /** The code points of ECMAScript's WhiteSpace and LineTerminator
      productions: what the regular-expression class `\s` matches and what
      `String.prototype.trim` strips. */
  predicate IsWhitespace(c: char) {
    || c == '\t' || c == '\n' || c == '\U{B}' || c == '\U{C}' || c == '\r'
    || c == ' ' || c == '\U{A0}' || c == '\U{1680}'
    || ('\U{2000}' <= c <= '\U{200A}')
    || c == '\U{2028}' || c == '\U{2029}' || c == '\U{202F}' || c == '\U{205F}'
    || c == '\U{3000}' || c == '\U{FEFF}'
  }

  /** JavaScript truthiness of an optional string: present and not empty. */
  predicate Truthy(s: Option<string>) {
    s.Some? && s.value != ""
  }

  /** `s.startsWith(prefix)`. */
  predicate StartsWith(s: string, prefix: string) {
    |prefix| <= |s| && s[..|prefix|] == prefix
  }

  /** Leading whitespace removed. */
  function TrimStart(s: string): (r: string)
    ensures |r| <= |s| && r == s[|s| - |r|..]
    ensures r == [] || !IsWhitespace(r[0])
    ensures forall i :: 0 <= i < |s| - |r| ==> IsWhitespace(s[i])
  {
    if s != [] && IsWhitespace(s[0]) then TrimStart(s[1..]) else s
  }

  /** Trailing whitespace removed. */
  function TrimEnd(s: string): (r: string)
    ensures |r| <= |s| && r == s[..|r|]
    ensures r == [] || !IsWhitespace(r[|r| - 1])
    ensures forall i :: |r| <= i < |s| ==> IsWhitespace(s[i])
  {
    if s != [] && IsWhitespace(s[|s| - 1]) then TrimEnd(s[..|s| - 1]) else s
  }

  /** `r` is the infix of `s` starting at `a`, and everything outside it is
      whitespace. */
  predicate InfixAmidWhitespace(s: string, a: int, r: string) {
    && 0 <= a <= |s| - |r| && r == s[a..a + |r|]
    && (forall i :: 0 <= i < a ==> IsWhitespace(s[i]))
    && (forall i :: a + |r| <= i < |s| ==> IsWhitespace(s[i]))
  }

  /** `s.trim()`: the longest infix of `s` that neither starts nor ends with
      whitespace, everything cut away on either side being whitespace. */
  function Trim(s: string): (r: string)
    ensures exists a :: InfixAmidWhitespace(s, a, r)
    ensures r == [] || (!IsWhitespace(r[0]) && !IsWhitespace(r[|r| - 1]))
  {
    var front := TrimStart(s);
    var r := TrimEnd(front);
    var a := |s| - |front|;
    assert InfixAmidWhitespace(s, a, r);
    r
  }

  /** Neither end is whitespace: what `trim` leaves as it is. */
  predicate Trimmed(s: string) {
    s == [] || (!IsWhitespace(s[0]) && !IsWhitespace(s[|s| - 1]))
  }

  /** `trim` changes exactly the strings with whitespace at an end. */
  lemma TrimmedIsFixedPoint(s: string)
    ensures Trimmed(s) <==> Trim(s) == s
  {
    if Trimmed(s) {
      assert TrimStart(s) == s;
      assert TrimEnd(s) == s;
    }
  }

  /** A string with no whitespace at all is its own trim. */
  lemma {:induction false} TrimNoWhitespace(s: string)
    requires forall i :: 0 <= i < |s| ==> !IsWhitespace(s[i])
    ensures Trim(s) == s
  {
    assert TrimStart(s) == s;
    assert TrimEnd(s) == s;
  }

  /** `toLowerCase` on one character, restricted to the ASCII letters. */
  function LowerChar(c: char): char {
    if 'A' <= c <= 'Z' then (c as int + 32) as char else c
  }

  /** `s.toLowerCase()` on ASCII letters: same length, every character
      lower-cased on its own. */
  function ToLower(s: string): (r: string)
    ensures |r| == |s|
    ensures forall i :: 0 <= i < |s| ==> r[i] == LowerChar(s[i])
  {
    if s == [] then [] else [LowerChar(s[0])] + ToLower(s[1..])
  }

  /** No ASCII capital letter: what `toLowerCase` leaves as it is. */
  predicate NoUpper(s: string) {
    forall i :: 0 <= i < |s| ==> !('A' <= s[i] <= 'Z')
  }

  /** Lower-casing changes exactly the strings with a capital letter. */
  lemma NoUpperIsFixedPoint(s: string)
    ensures NoUpper(s) <==> ToLower(s) == s
  {
    if ToLower(s) == s {
      forall i | 0 <= i < |s| ensures !('A' <= s[i] <= 'Z') {
        assert ToLower(s)[i] == LowerChar(s[i]);
      }
    }
  }

  lemma LowerHasNoUpper(s: string)
    ensures NoUpper(ToLower(s))
  {
    var l := ToLower(s);
    forall i | 0 <= i < |l| ensures !('A' <= l[i] <= 'Z') {
      assert l[i] == LowerChar(s[i]);
    }
  }

  /** Trimming only cuts away, so it adds no capital letter. */
  lemma TrimKeepsNoUpper(s: string)
    requires NoUpper(s)
    ensures Trimmed(Trim(s)) && NoUpper(Trim(s))
  {
    var r := Trim(s);
    var a :| InfixAmidWhitespace(s, a, r);
    forall i | 0 <= i < |r| ensures !('A' <= r[i] <= 'Z') {
      assert r[i] == s[a + i];
    }
  }

  /** Lower-casing never turns whitespace into non-whitespace or back. */
  lemma LowerKeepsWhitespace(c: char)
    ensures IsWhitespace(LowerChar(c)) == IsWhitespace(c)
  {
  }

  lemma {:induction false} TrimStartLower(s: string)
    ensures TrimStart(ToLower(s)) == ToLower(TrimStart(s))
  {
    if s != [] {
      LowerKeepsWhitespace(s[0]);
      var t := ToLower(s);
      if IsWhitespace(s[0]) {
        assert t[1..] == ToLower(s[1..]);
        TrimStartLower(s[1..]);
      }
    }
  }

  lemma {:induction false} TrimEndLower(s: string)
    ensures TrimEnd(ToLower(s)) == ToLower(TrimEnd(s))
  {
    if s != [] {
      var n := |s| - 1;
      LowerKeepsWhitespace(s[n]);
      var t := ToLower(s);
      if IsWhitespace(s[n]) {
        assert t[..n] == ToLower(s[..n]);
        TrimEndLower(s[..n]);
      }
    }
  }

  /** Trimming and lower-casing commute, so the order in which a schema
      applies its `lowercase` and `trim` setters does not matter. */
  lemma TrimLowerCommute(s: string)
    ensures Trim(ToLower(s)) == ToLower(Trim(s))
  {
    TrimStartLower(s);
    TrimEndLower(TrimStart(s));
  }

  /** Trimming twice trims no more than once. */
  lemma TrimIdempotent(s: string)
    ensures Trim(Trim(s)) == Trim(s)
  {
    var r := Trim(s);
    assert TrimStart(r) == r;
    assert TrimEnd(r) == r;
  }

  /** Lower-casing twice lower-cases no more than once. */
  lemma ToLowerIdempotent(s: string)
    ensures ToLower(ToLower(s)) == ToLower(s)
  {
    assert forall i :: 0 <= i < |s| ==> LowerChar(LowerChar(s[i])) == LowerChar(s[i]);
  }
}
