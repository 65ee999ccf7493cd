/** Values the browser hands to the script: a nullable value and the character
    classes that the script's regular expressions use. */
module JsValues {

  /** A value that may be `null`, as `FormData.get` or `localStorage.getItem` return. */
  datatype Option<+T> = None | Some(value: T)

  /** The regex classes `[0-9]` and `\d` (ASCII digits only, no `u` flag). */
  predicate IsAsciiDigit(c: char) {
    '0' <= c <= '9'
  }

  /** The regex class `\s`: ECMAScript WhiteSpace and LineTerminator code points. */
  predicate IsJsWhitespace(c: char): (r: bool)
    // none of the other characters the script's patterns name is blank
    ensures r ==> !IsAsciiDigit(c) && c != '-' && c != '@' && c != '.'
  {
    c == '\t' || c == '\n' || c == '\U{B}' || c == '\U{C}' || c == '\r' || c == ' '
    || c == '\U{A0}' || c == '\U{1680}' || ('\U{2000}' <= c <= '\U{200A}')
    || c == '\U{2028}' || c == '\U{2029}' || c == '\U{202F}' || c == '\U{205F}'
    || c == '\U{3000}' || c == '\U{FEFF}'
  }
}
