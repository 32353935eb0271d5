/** A log format: an alias and the regex that splits a raw line into fields (`models/format.rs`). */
module Formats {
  import opened Wrappers
  import opened Regex

  datatype Format = Format(alias: string, regex: string)

  datatype FormatError = EmptyAliasOrRegex | InvalidRegex

  /** `Format::new`: rejects an empty alias or regex, then a regex that does not compile. */
  function NewFormat(engine: RegexEngine, alias: string, regex: string): (r: Result<Format, FormatError>)
    ensures r.Ok? <==> alias != "" && regex != "" && engine.compiles(regex)
    ensures r.Ok? ==> r.value == Format(alias, regex)
    ensures r == Err(EmptyAliasOrRegex) <==> alias == "" || regex == ""
    ensures r == Err(InvalidRegex) <==> alias != "" && regex != "" && !engine.compiles(regex)
  {
    if alias == "" || regex == "" then Err(EmptyAliasOrRegex)
    else match Compile(engine, regex)
      case Some(_) => Ok(Format(alias, regex))
      case None => Err(InvalidRegex)
  }
}
