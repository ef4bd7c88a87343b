/** The pieces of PHP's string semantics that the server code relies on. */
module Php {
  import Text

  /** `empty($s)` for a string: true for the empty string and for "0". */
  predicate IsEmpty(s: string) {
    s == "" || s == "0"
  }

  /** Characters that `trim()` strips with its default list: space, tab, newline, carriage return, NUL, vertical tab. */
  predicate IsTrimChar(c: char) {
    c == ' ' || c == '\t' || c == '\n' || c == '\r' || c == '\0' || c == '\U{0B}'
  }

  /** `trim($s)` with the default character list. */
  function Trim(s: string): string {
    Text.Trim(s, IsTrimChar)
  }

  /** PCRE `\d` (no Unicode mode): an ASCII digit. */
  predicate IsDigit(c: char) {
    '0' <= c <= '9'
  }

  /** PCRE `\w` (no Unicode mode, C locale): ASCII letter, digit or underscore. */
  predicate IsWordChar(c: char) {
    'a' <= c <= 'z' || 'A' <= c <= 'Z' || IsDigit(c) || c == '_'
  }

  /** PCRE `\s` (no Unicode mode): space, tab, newline, vertical tab, form feed, carriage return. */
  predicate IsSpace(c: char) {
    c == ' ' || '\t' <= c <= '\r'
  }
}
