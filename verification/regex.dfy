/**
 * The regular-expression engine is a foreign library. It is represented by
 * the three capabilities the log analyzer uses: compiling a pattern, testing
 * whether a pattern matches somewhere in a text, and running the pattern
 * once to obtain its named capture groups. Nothing else about the engine is
 * assumed.
 */
module Regex {
  import opened Wrappers

  datatype RegexEngine = RegexEngine(
    /** `Regex::new(pattern).is_ok()` */
    compiles: string -> bool,
    /** `Regex::is_match(pattern, text)` */
    isMatch: (string, string) -> bool,
    /**
     * `Regex::captures(pattern, text)`: `None` when there is no match,
     * otherwise the named groups that took part in the match.
     */
    captures: (string, string) -> Option<map<string, string>>)

  /** A compiled regular expression, identified by its pattern text. */
  datatype Regex = Regex(pattern: string)

  /** `Regex::new(pattern)` */
  function Compile(engine: RegexEngine, pattern: string): (r: Option<Regex>)
    ensures r.Some? <==> engine.compiles(pattern)
    ensures r.Some? ==> r.value.pattern == pattern
  {
    if engine.compiles(pattern) then Some(Regex(pattern)) else None
  }

  function IsMatch(engine: RegexEngine, re: Regex, text: string): bool {
    engine.isMatch(re.pattern, text)
  }
}
