/** The named-escape table: `named` maps the letter after a backslash to the
    character it stands for, `inverse` maps a character the encoder escapes
    back to its letter. The library's own table is not part of this model;
    it is a parameter, constrained only by `Valid`. */
module Escapes {

  datatype EscapeTable = EscapeTable(named: map<char, char>, inverse: map<char, char>) {

    /** What the round trips rely on: the quote and the backslash are always
        escaped, every escape the encoder writes is read back as the
        character it came from, and `u` is left to `\u{...}`. */
    predicate Valid() {
      && '"' in inverse
      && '\\' in inverse
      && 'u' !in named
      && forall c :: c in inverse ==> inverse[c] in named && named[inverse[c]] == c
    }
  }

  /** The named escapes of KDL 1.0 (`\" \\ \/ \b \f \n \r \t`); the solidus
      is read but never written. */
  const Kdl1Escapes: EscapeTable :=
    EscapeTable(
      map['"' := '"', '\\' := '\\', '/' := '/', 'b' := '\U{0008}', 'f' := '\U{000C}',
          'n' := '\n', 'r' := '\r', 't' := '\t'],
      map['"' := '"', '\\' := '\\', '\U{0008}' := 'b', '\U{000C}' := 'f',
          '\n' := 'n', '\r' := 'r', '\t' := 't'])

  lemma Kdl1EscapesValid()
    ensures Kdl1Escapes.Valid()
  {
  }
}
