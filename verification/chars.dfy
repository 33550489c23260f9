/** ASCII versions of the character classes the action relies on. */
module Chars {

  /** `Char.isUpperCase()`, restricted to ASCII. */
  predicate IsUpper(c: char) {
    'A' <= c <= 'Z'
  }

  /** `Char.isLowerCase()`, restricted to ASCII. */
  predicate IsLower(c: char) {
    'a' <= c <= 'z'
  }

  /** `Char.lowercaseChar()`, restricted to ASCII. */
  function ToLower(c: char): (r: char)
    ensures IsUpper(c) ==> IsLower(r) && r as int - 'a' as int == c as int - 'A' as int
    ensures !IsUpper(c) ==> r == c
  {
    if IsUpper(c) then (c as int - 'A' as int + 'a' as int) as char else c
  }

  /** `Char.uppercaseChar()`, restricted to ASCII. */
  function ToUpper(c: char): (r: char)
    ensures IsLower(c) ==> IsUpper(r) && r as int - 'A' as int == c as int - 'a' as int
    ensures !IsLower(c) ==> r == c
  {
    if IsLower(c) then (c as int - 'a' as int + 'A' as int) as char else c
  }

  /** The regex class `\w`: `[a-zA-Z_0-9]`. */
  predicate IsWordChar(c: char) {
    IsUpper(c) || IsLower(c) || '0' <= c <= '9' || c == '_'
  }

  /** The regex class `\s`: `[ \t\n\x0B\f\r]`. */
  predicate IsRegexSpace(c: char) {
    9 <= c as int <= 13 || c == ' '
  }

  /** `Char.isWhitespace()` on the JVM, restricted to ASCII: the `\s` characters
      plus the four separators U+001C..U+001F. */
  predicate IsWhitespace(c: char) {
    9 <= c as int <= 13 || 28 <= c as int <= 32
  }
}
