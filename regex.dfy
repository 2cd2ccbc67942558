/**
 * Regular expressions.  The matching engine is not modelled: a compiled
 * regular expression is its `is_match` predicate.
 */
module Regexes {
  import opened Wrappers

  /** A compiled regular expression, as the strings it matches somewhere. */
  type Regex = string -> bool

  /** An optional filter on a name: no regex keeps everything, a regex keeps the names it matches. */
  predicate Keeps(re: Option<Regex>, name: string) {
    match re
    case None => true
    case Some(r) => r(name)
  }

  /**
   * An optional filter on an optional value: no regex keeps everything, a
   * regex keeps a present value it matches and rejects an absent one.
   */
  predicate KeepsPresent(re: Option<Regex>, value: Option<string>) {
    match re
    case None => true
    case Some(r) => value.Some? && r(value.value)
  }
}
