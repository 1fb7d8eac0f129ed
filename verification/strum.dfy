/** The string names that strum's `serialize_all = "snake_case"` derives for enum variants. */
module Strum {

  /** Lower-case words joined by single underscores, e.g. `space_between`. */
  predicate IsSnakeCase(s: string) {
    && |s| > 0
    && s[0] != '_'
    && s[|s| - 1] != '_'
    && (forall c | c in s :: 'a' <= c <= 'z' || c == '_')
    && (forall i | 0 <= i < |s| - 1 && s[i] == '_' :: s[i + 1] != '_')
  }
}
