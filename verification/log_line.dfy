/**
 * A structured log line (`LogLine`): the ingestion index, the raw log text,
 * the six format fields and an optional RGB colour set by a matching filter.
 */
module LogLines {
  import opened Wrappers

  newtype u8 = x: int | 0 <= x < 0x100

  /** An `(u8, u8, u8)` colour. */
  datatype Rgb = Rgb(r: u8, g: u8, b: u8)

  /** The Rust field `function` is called `func` here (`function` is a Dafny keyword). */
  datatype LogLine = LogLine(
    log: string,
    index: string,
    date: string,
    timestamp: string,
    app: string,
    severity: string,
    func: string,
    payload: string,
    color: Option<Rgb>)

  /** `LogLine::default()`: every text field empty, no colour. */
  const Default: LogLine := LogLine("", "", "", "", "", "", "", "", None)

  /** `LogLine::columns()`: the keys accepted by `get`, in display order. */
  function Columns(): (cs: seq<string>)
    ensures |cs| == 6
  {
    ["Date", "Timestamp", "App", "Severity", "Function", "Payload"]
  }

  /** The six fields the iterators yield, in `IntoIterator` order. */
  function Fields(line: LogLine): (fs: seq<string>)
    ensures |fs| == |Columns()|
  {
    [line.date, line.timestamp, line.app, line.severity, line.func, line.payload]
  }

  /** `LogLine::get(key)`: the field a column name designates; `None` for any other key. */
  function Get(line: LogLine, key: string): (r: Option<string>)
    ensures r.Some? <==> key in Columns()
    ensures r.Some? ==> r.value in Fields(line)
  {
    if key == "Date" then Some(line.date)
    else if key == "Timestamp" then Some(line.timestamp)
    else if key == "App" then Some(line.app)
    else if key == "Severity" then Some(line.severity)
    else if key == "Function" then Some(line.func)
    else if key == "Payload" then Some(line.payload)
    else None
  }

  /** `(column, field)` pairs in column order: the keys a filter definition may constrain. */
  function Values(line: LogLine): (vs: seq<(string, string)>)
    ensures |vs| == |Columns()|
    ensures forall i :: 0 <= i < |vs| ==> vs[i].0 == Columns()[i]
  {
    seq(|Columns()|, i requires 0 <= i < |Columns()| => (Columns()[i], Fields(line)[i]))
  }

  /** Two lines that differ at most in their colour. */
  predicate SameText(a: LogLine, b: LogLine) {
    a.(color := None) == b.(color := None)
  }

  /** `get` and the iterators agree: the i-th column names the i-th iterated field. */
  lemma GetMatchesFields(line: LogLine)
    ensures forall i :: 0 <= i < |Columns()| ==> Get(line, Columns()[i]) == Some(Fields(line)[i])
  {
  }

  /** `get` looks only at the text of a line, never at its colour. */
  lemma GetIgnoresColor(line: LogLine, key: string, c: Option<Rgb>)
    ensures Get(line.(color := c), key) == Get(line, key)
  {
  }
}
