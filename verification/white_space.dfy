/** The white space that stripping removes: the characters that count as spaces in Python text. */
module WhiteSpace {

  predicate Space(c: char) {
    || c == ' ' || '\t' <= c <= '\r' || '\U{1C}' <= c <= '\U{1F}'
    || c == '\U{85}' || c == '\U{A0}' || c == '\U{1680}' || '\U{2000}' <= c <= '\U{200A}'
    || c == '\U{2028}' || c == '\U{2029}' || c == '\U{202F}' || c == '\U{205F}' || c == '\U{3000}'
  }

  predicate OnlySpaces(s: string) {
    forall c :: c in s ==> Space(c)
  }
}
