/**
 * The part of Python's `re` module the engine uses, left abstract: a compiled
 * pattern is known only through what `pattern.match(text)` (anchored at
 * position 0) and `pattern.search(text)` (first match anywhere) return.
 */
module Re {
  import opened Wrappers

  /**
   * A successful match object, seen through `len(m.groups())` and
   * `m.groupdict()`. A named group that took no part in the match maps to
   * `None`, as in Python.
   */
  datatype Match = Match(groupCount: nat, groupdict: map<string, Option<string>>)

  /** A compiled pattern: its anchored `match` and its free `search`. */
  datatype Pattern = Pattern(matchStart: string -> Option<Match>, search: string -> Option<Match>)

  /**
   * The exception an extractor raises when its pattern has capturing groups
   * but none of them is named; `extractor` is the extractor's name and
   * `message` the text of the exception.
   */
  datatype UnnamedGroupsError = UnnamedGroups(extractor: string, message: string)

  /** The malformed-pattern condition the extractors test on a match. */
  predicate OnlyUnnamedGroups(m: Match) {
    m.groupCount > 0 && |m.groupdict| == 0
  }
}
