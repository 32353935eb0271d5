/**
 * Line structuring (`domain/apply_format.rs`): a raw line and its ingestion
 * index become a `LogLine`. A line is never dropped; without a format, or
 * when the format does not match, the whole line becomes the payload.
 */
module ApplyFormat {
  import opened Wrappers
  import opened Regex
  import opened LogLines
  import Decimal

  /** `default_log_line`: the index in decimal, the raw line as payload, nothing else. */
  function DefaultLogLine(line: string, index: nat): (r: LogLine)
    ensures r.payload == line && r.index == Decimal.NatToString(index)
    ensures r.log == "" && r.date == "" && r.timestamp == "" && r.app == ""
    ensures r.severity == "" && r.func == "" && r.color == None
  {
    Default.(index := Decimal.NatToString(index), payload := line, color := None)
  }

  /** `unwrap_or_empty_string`: a named group that did not take part in the match reads as "". */
  function GroupOrEmpty(groups: map<string, string>, name: string): (s: string)
    ensures name in groups ==> s == groups[name]
    ensures name !in groups ==> s == ""
  {
    if name in groups then groups[name] else ""
  }

  /** `apply_format(format, line, index)` */
  function ApplyFormat(engine: RegexEngine, format: Option<Regex>, line: string, index: nat): (r: LogLine)
    ensures r.index == Decimal.NatToString(index)
    ensures r.color == None && r.log == ""
  {
    match format
    case None => DefaultLogLine(line, index)
    case Some(re) =>
      match engine.captures(re.pattern, line)
      case None => DefaultLogLine(line, index)
      case Some(groups) =>
        LogLine(
          log := "",
          index := Decimal.NatToString(index),
          date := GroupOrEmpty(groups, "DATE"),
          timestamp := GroupOrEmpty(groups, "TIMESTAMP"),
          app := GroupOrEmpty(groups, "APP"),
          severity := GroupOrEmpty(groups, "SEVERITY"),
          func := GroupOrEmpty(groups, "FUNCTION"),
          payload := GroupOrEmpty(groups, "PAYLOAD"),
          color := None)
  }

  /** Without a format the raw line is the payload and every other field is empty. */
  lemma NoFormatFallsBack(engine: RegexEngine, line: string, index: nat)
    ensures ApplyFormat(engine, None, line, index) == DefaultLogLine(line, index)
    ensures ApplyFormat(engine, None, line, index).payload == line
  {
  }

  /** A format that does not match yields the same fallback line: the line is never dropped. */
  lemma NoMatchFallsBack(engine: RegexEngine, re: Regex, line: string, index: nat)
    requires engine.captures(re.pattern, line).None?
    ensures ApplyFormat(engine, Some(re), line, index) == DefaultLogLine(line, index)
  {
  }

  /**
   * On a match each field is the capture of its upper-case named group, and a
   * group absent from the match (or from the pattern) leaves its field empty.
   */
  lemma MatchFillsFields(engine: RegexEngine, re: Regex, line: string, index: nat)
    requires engine.captures(re.pattern, line).Some?
    ensures var groups := engine.captures(re.pattern, line).value;
            var r := ApplyFormat(engine, Some(re), line, index);
            && r.date == GroupOrEmpty(groups, "DATE")
            && r.timestamp == GroupOrEmpty(groups, "TIMESTAMP")
            && r.app == GroupOrEmpty(groups, "APP")
            && r.severity == GroupOrEmpty(groups, "SEVERITY")
            && r.func == GroupOrEmpty(groups, "FUNCTION")
            && r.payload == GroupOrEmpty(groups, "PAYLOAD")
  {
  }

  /** The index field always parses back to the ingestion index. */
  lemma IndexRoundTrip(engine: RegexEngine, format: Option<Regex>, line: string, index: nat)
    requires index <= Decimal.USIZE_MAX
    ensures Decimal.ParseUnsigned(ApplyFormat(engine, format, line, index).index, Decimal.USIZE_MAX) == Some(index)
  {
    Decimal.ParseNatToString(index, Decimal.USIZE_MAX);
  }
}
