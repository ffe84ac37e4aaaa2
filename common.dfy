/** Small shared vocabulary: Kotlin's nullable values become Option. */
module Common {

  datatype Option<+T> = None | Some(value: T)

  /** True if `s` begins with the character `c`. */
  predicate StartsWith(s: string, c: char) {
    |s| > 0 && s[0] == c
  }
}
