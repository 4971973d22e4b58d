/** Character classes of the C locale. */
module Ctype {

  /** isspace */
  predicate IsSpace(c: char)
  {
    c == ' ' || 9 <= c as int <= 13
  }

  /** Space, form feed, newline, carriage return and the two tabs. */
  lemma SpaceIs(c: char)
    ensures IsSpace(c) <==> c in {' ', 12 as char, '\n', '\r', '\t', 11 as char}
  {
  }
}
