/** Regular expressions as the rest of the model sees them: opaque tokens.
    Whether `re.compile` accepts a pattern and whether a compiled pattern
    full-matches a string are supplied by the caller, as an engine. */
module Patterns {

  /** A compiled pattern, known by its source text. */
  datatype Regex = Regex(source: string)

  /** `re.compile(p)` succeeds exactly when `compiles(p)`;
      `r.fullmatch(s)` is not None exactly when `fullmatch(r, s)`. */
  datatype Engine = Engine(compiles: string -> bool, fullmatch: (Regex, string) -> bool)
}
