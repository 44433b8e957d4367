/**
 Character classes used by the credential-key normalisation.

 Characters are Unicode code points. `IsSpace` is the white-space class
 that Go's `strings.TrimSpace` strips (`unicode.IsSpace`); `UpperChar`
 upper-cases ASCII letters only and leaves every other character alone.
 */
module Runes {

  /** Go's `unicode.IsSpace`: the ASCII controls TAB..CR, SPACE, NEL, NBSP,
      and the remaining code points with the Unicode White_Space property. */
  predicate IsSpace(c: char) {
    var n := c as int;
    || (0x09 <= n <= 0x0D)
    || n == 0x20
    || n == 0x85
    || n == 0xA0
    || n == 0x1680
    || (0x2000 <= n <= 0x200A)
    || n == 0x2028
    || n == 0x2029
    || n == 0x202F
    || n == 0x205F
    || n == 0x3000
  }

  predicate IsLower(c: char) {
    'a' <= c <= 'z'
  }

  predicate IsUpper(c: char) {
    'A' <= c <= 'Z'
  }

  /** Upper-case mapping of one character (ASCII letters only). */
  function UpperChar(c: char): (u: char)
    ensures !IsLower(u)
    ensures IsLower(c) ==> IsUpper(u) && u as int == c as int - 32
    ensures !IsLower(c) ==> u == c
  {
    if IsLower(c) then (c as int - 32) as char else c
  }

  /** What one character of a trimmed credential key becomes in the
      environment-variable name: space and hyphen turn into `_`, lower-case
      letters into upper-case ones, and everything else stays. */
  function NormChar(c: char): (d: char)
    ensures d != ' ' && d != '-' && !IsLower(d)
    ensures c == ' ' || c == '-' ==> d == '_'
    ensures c != ' ' && c != '-' ==> d == UpperChar(c)
  {
    if c == ' ' || c == '-' then '_' else UpperChar(c)
  }

  /** Normalising never produces white space out of a non-space character,
      so a trimmed key stays trimmed. */
  lemma NormCharKeepsNonSpace(c: char)
    requires !IsSpace(c)
    ensures !IsSpace(NormChar(c))
  {
    if IsLower(c) {
      assert IsUpper(NormChar(c));
    }
  }

  /** A normalised character is its own normal form. */
  lemma NormCharIdempotent(c: char)
    ensures NormChar(NormChar(c)) == NormChar(c)
  {
  }
}
