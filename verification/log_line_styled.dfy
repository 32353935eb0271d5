/**
 * A search result line (`models/log_line_styled.rs`): every field is a list
 * of segments, each a piece of text optionally tagged with the name of the
 * capture group (a colour name) that highlighted it.
 */
module StyledLines {
  import opened Wrappers
  import opened LogLines
  import Decimal

  /** `(Option<String>, String)`: highlight group name, text. */
  datatype Segment = Segment(highlight: Option<string>, text: string)

  datatype LogLineStyled = LogLineStyled(
    log: seq<Segment>,
    index: seq<Segment>,
    date: seq<Segment>,
    timestamp: seq<Segment>,
    app: seq<Segment>,
    severity: seq<Segment>,
    func: seq<Segment>,
    payload: seq<Segment>,
    color: Option<Rgb>)

  datatype Ordering = Less | Equal | Greater

  /** `LogLineStyled::columns()` */
  function StyledColumns(): (cs: seq<string>)
    ensures |cs| == 8
  {
    ["Log", "Index", "Date", "Timestamp", "App", "Severity", "Function", "Payload"]
  }

  /** The eight fields in column order. */
  function StyledFieldsByColumn(l: LogLineStyled): (fs: seq<seq<Segment>>)
    ensures |fs| == |StyledColumns()|
  {
    [l.log, l.index, l.date, l.timestamp, l.app, l.severity, l.func, l.payload]
  }

  /** `LogLineStyled::get(key)` */
  function StyledGet(l: LogLineStyled, key: string): (r: Option<seq<Segment>>)
    ensures r.Some? <==> key in StyledColumns()
    ensures forall i :: 0 <= i < |StyledColumns()| && key == StyledColumns()[i] ==> r == Some(StyledFieldsByColumn(l)[i])
  {
    if key == "Log" then Some(l.log)
    else if key == "Index" then Some(l.index)
    else if key == "Date" then Some(l.date)
    else if key == "Timestamp" then Some(l.timestamp)
    else if key == "App" then Some(l.app)
    else if key == "Severity" then Some(l.severity)
    else if key == "Function" then Some(l.func)
    else if key == "Payload" then Some(l.payload)
    else None
  }

  /** `LogLineStyled::values()`: seven named fields; `Index` is left out. */
  function StyledValues(l: LogLineStyled): (vs: seq<(string, seq<Segment>)>)
    ensures |vs| == 7
    ensures forall i :: 0 <= i < |vs| ==> vs[i].0 != "Index" && StyledGet(l, vs[i].0) == Some(vs[i].1)
  {
    [("Log", l.log), ("Date", l.date), ("Timestamp", l.timestamp), ("App", l.app),
     ("Severity", l.severity), ("Function", l.func), ("Payload", l.payload)]
  }

  /** The iterators: the same seven fields as `values()`, in the same order. */
  function StyledFields(l: LogLineStyled): (fs: seq<seq<Segment>>)
    ensures |fs| == |StyledValues(l)|
    ensures forall i :: 0 <= i < |fs| ==> fs[i] == StyledValues(l)[i].1
  {
    [l.log, l.date, l.timestamp, l.app, l.severity, l.func, l.payload]
  }

  /** Reference reading of a field: the texts of its segments, first to last. */
  function Concat(segs: seq<Segment>): (s: string)
  {
    if |segs| == 0 then "" else segs[0].text + Concat(segs[1..])
  }

  /** The `unformat` closure: `fold(String::new(), |acc, g| acc + &g.1)`. */
  function Unformat(acc: string, segs: seq<Segment>): (s: string)
    ensures s == acc + Concat(segs)
    decreases |segs|
  {
    if |segs| == 0 then acc else Unformat(acc + segs[0].text, segs[1..])
  }

  /** `LogLineStyled::unformat()`: each field flattened to its text; the colour is kept. */
  function UnformatLine(l: LogLineStyled): (r: LogLine)
    ensures r.color == l.color
    ensures r.log == Concat(l.log) && r.index == Concat(l.index) && r.date == Concat(l.date)
    ensures r.timestamp == Concat(l.timestamp) && r.app == Concat(l.app)
    ensures r.severity == Concat(l.severity) && r.func == Concat(l.func) && r.payload == Concat(l.payload)
  {
    LogLine(
      log := Unformat("", l.log),
      index := Unformat("", l.index),
      date := Unformat("", l.date),
      timestamp := Unformat("", l.timestamp),
      app := Unformat("", l.app),
      severity := Unformat("", l.severity),
      func := Unformat("", l.func),
      payload := Unformat("", l.payload),
      color := l.color)
  }

  lemma {:induction false} ConcatAppend(a: seq<Segment>, b: seq<Segment>)
    ensures Concat(a + b) == Concat(a) + Concat(b)
  {
    if |a| > 0 {
      assert (a + b)[1..] == a[1..] + b;
      ConcatAppend(a[1..], b);
    } else {
      assert a + b == b;
    }
  }

  /** Highlight names are dropped: relabelling any segment does not change the unformatted text. */
  lemma {:induction false} ConcatIgnoresHighlight(segs: seq<Segment>, i: nat, h: Option<string>)
    requires i < |segs|
    ensures Concat(segs[i := segs[i].(highlight := h)]) == Concat(segs)
  {
    if i > 0 {
      ConcatIgnoresHighlight(segs[1..], i - 1, h);
      assert segs[i := segs[i].(highlight := h)][1..] == segs[1..][i - 1 := segs[i].(highlight := h)];
    }
  }

  /** The numeric index of a styled line, if its unformatted index parses as a `usize`. */
  function IndexOf(l: LogLineStyled): Option<nat> {
    Decimal.ParseUnsigned(UnformatLine(l).index, Decimal.USIZE_MAX)
  }

  /** `Ord::cmp`: numeric index order; `Equal` when either index fails to parse. */
  function Cmp(a: LogLineStyled, b: LogLineStyled): (o: Ordering)
    ensures o == Less ==> IndexOf(a).Some? && IndexOf(b).Some? && IndexOf(a).value < IndexOf(b).value
    ensures o == Greater ==> IndexOf(a).Some? && IndexOf(b).Some? && IndexOf(a).value > IndexOf(b).value
    ensures o == Equal <==> IndexOf(a).None? || IndexOf(b).None? || IndexOf(a).value == IndexOf(b).value
  {
    match (IndexOf(a), IndexOf(b))
    case (Some(x), Some(y)) => if x < y then Less else if x == y then Equal else Greater
    case _ => Equal
  }

  /** `PartialOrd::partial_cmp`: the same order, but `None` when an index fails to parse. */
  function PartialCmp(a: LogLineStyled, b: LogLineStyled): (o: Option<Ordering>)
    ensures o.None? <==> IndexOf(a).None? || IndexOf(b).None?
  {
    match (IndexOf(a), IndexOf(b))
    case (Some(x), Some(y)) => Some(if x < y then Less else if x == y then Equal else Greater)
    case _ => None
  }

  /** `PartialEq::eq`: every field except `log` is compared. */
  function Eq(a: LogLineStyled, b: LogLineStyled): (r: bool)
    ensures r <==> a.(log := b.log) == b
  {
    && a.index == b.index && a.date == b.date && a.timestamp == b.timestamp && a.app == b.app
    && a.severity == b.severity && a.func == b.func && a.payload == b.payload && a.color == b.color
  }

  /** `partial_cmp` is `Some(cmp)` exactly when both indexes parse. */
  lemma PartialCmpAgreesWithCmp(a: LogLineStyled, b: LogLineStyled)
    ensures IndexOf(a).Some? && IndexOf(b).Some? ==> PartialCmp(a, b) == Some(Cmp(a, b))
    ensures IndexOf(a).None? || IndexOf(b).None? ==> PartialCmp(a, b).None? && Cmp(a, b) == Equal
  {
  }

  /** `cmp` is antisymmetric. */
  lemma CmpAntisymmetric(a: LogLineStyled, b: LogLineStyled)
    ensures Cmp(a, b) == Less <==> Cmp(b, a) == Greater
    ensures Cmp(a, b) == Equal <==> Cmp(b, a) == Equal
  {
  }

  /** `eq` is an equivalence that ignores only the raw `log` field. */
  lemma EqIsEquivalence(a: LogLineStyled, b: LogLineStyled, c: LogLineStyled)
    ensures Eq(a, a)
    ensures Eq(a, b) ==> Eq(b, a)
    ensures Eq(a, b) && Eq(b, c) ==> Eq(a, c)
  {
  }
}
