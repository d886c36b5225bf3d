/** Character classes shared by the validator and the evaluator. */
module Symbols {

  /** The characters `isValidExpression` lets through (MainActivity.java:79). */
  const ValidCharacters: seq<char> := "pqtfPQTF&V~-><->()"

  /** Variables and constants, in either case. */
  predicate IsAtomChar(c: char) {
    c in "pqtfPQTF"
  }

  /** A legal character that is neither an atom nor a parenthesis: the
      validator's "It's an operator" branch. */
  predicate IsOperatorChar(c: char) {
    c in ValidCharacters && c != '(' && c != ')' && !IsAtomChar(c)
  }

  /** The characters `\s` matches in a Java regular expression. */
  predicate IsWhitespace(c: char) {
    c in " \t\n\r\U{000B}\U{000C}"
  }
}
