/** The tree that the JSON reader hands to the parser, and the test on its values. */
module PropertyTree {
  /** A node with its key; elements of a JSON array have an empty key. */
  datatype Entry = Entry(key: string, data: string, children: seq<Entry>)

  predicate IsForbidden(c: char) {
    c == '<' || c == '>' || c == '"' || c == '\'' || c == '=' || c == ';' || c == '(' || c == ')'
  }

  predicate ForbiddenChars(s: string) {
    exists c | c in s :: IsForbidden(c)
  }
}
