/**
 * Filter definitions (`models/filter.rs`): the action a filter takes, the
 * user-facing definition (a `LogLine` whose fields hold regex patterns) and
 * the compiled form the filtering code evaluates.
 */
module Filters {
  import opened Wrappers
  import opened Regex
  import opened LogLines

  datatype FilterAction = MARKER | INCLUDE | EXCLUDE

  /** `FilterAction::default()` */
  const DefaultAction: FilterAction := MARKER

  /** `FilterAction::from(usize)`: the tab index chosen in the filter popup. */
  function ActionFromUsize(v: nat): (a: FilterAction)
    ensures a == INCLUDE <==> v == 0
    ensures a == EXCLUDE <==> v == 1
    ensures a == MARKER <==> v >= 2
  {
    match v
    case 0 => INCLUDE
    case 1 => EXCLUDE
    case _ => MARKER
  }

  /** The base definition: an alias, an action, and one pattern per line field. */
  datatype Filter = Filter(alias: string, action: FilterAction, filter: LogLine)

  /** The compiled filter: (column, regex) pairs plus the colour to paint on a match. */
  datatype LogFilter = LogFilter(action: FilterAction, filters: seq<(string, Regex)>, color: Option<Rgb>)

  /** Every key of the compiled filter is a column `LogLine::get` accepts. */
  predicate WellKeyed(f: LogFilter) {
    forall i :: 0 <= i < |f.filters| ==> f.filters[i].0 in Columns()
  }

  /** Keeps, in order, the (key, pattern) pairs whose pattern compiles. */
  function CompiledPairs(engine: RegexEngine, vs: seq<(string, string)>): (r: seq<(string, Regex)>)
    ensures |r| <= |vs|
    ensures forall i :: 0 <= i < |r| ==> engine.compiles(r[i].1.pattern) && (r[i].0, r[i].1.pattern) in vs
    ensures forall k, p :: (k, p) in vs && engine.compiles(p) ==> (k, Regex(p)) in r
  {
    if |vs| == 0 then []
    else
      var rest := CompiledPairs(engine, vs[1..]);
      assert forall k, p :: (k, p) in vs[1..] ==> (k, p) in vs;
      if engine.compiles(vs[0].1) then [(vs[0].0, Regex(vs[0].1))] + rest else rest
  }

  /** `Filter::get_filters`: the valid (key, regex) pairs of the definition. */
  function GetFilters(engine: RegexEngine, f: Filter): (r: seq<(string, Regex)>)
    ensures |r| <= |Columns()|
    ensures forall i :: 0 <= i < |r| ==> r[i].0 in Columns() && engine.compiles(r[i].1.pattern)
    ensures forall i :: 0 <= i < |Columns()| && engine.compiles(Fields(f.filter)[i]) ==>
              (Columns()[i], Regex(Fields(f.filter)[i])) in r
  {
    var vs := Values(f.filter);
    var r := CompiledPairs(engine, vs);
    assert forall i :: 0 <= i < |r| ==> r[i].0 in Columns() by {
      forall i | 0 <= i < |r| ensures r[i].0 in Columns() {
        var j :| 0 <= j < |vs| && vs[j] == (r[i].0, r[i].1.pattern);
      }
    }
    assert forall i :: 0 <= i < |Columns()| ==> vs[i] == (Columns()[i], Fields(f.filter)[i]);
    r
  }

  /** `LogFilter::from(Filter)` */
  function FromFilter(engine: RegexEngine, f: Filter): (r: LogFilter)
    ensures r.action == f.action && r.color == f.filter.color
    ensures r.filters == GetFilters(engine, f)
    ensures WellKeyed(r)
  {
    LogFilter(f.action, GetFilters(engine, f), f.filter.color)
  }

  /** When every pattern compiles, nothing is dropped and the pairs keep their order. */
  lemma {:induction false} CompiledPairsAllCompile(engine: RegexEngine, vs: seq<(string, string)>)
    requires forall i :: 0 <= i < |vs| ==> engine.compiles(vs[i].1)
    ensures |CompiledPairs(engine, vs)| == |vs|
    ensures forall i :: 0 <= i < |vs| ==> CompiledPairs(engine, vs)[i] == (vs[i].0, Regex(vs[i].1))
  {
    if |vs| > 0 {
      CompiledPairsAllCompile(engine, vs[1..]);
    }
  }

  /** `From<usize>` inverts the tab order used by the filter popup: 0, 1, 2 name the three actions. */
  lemma ActionTabs()
    ensures ActionFromUsize(0) == INCLUDE && ActionFromUsize(1) == EXCLUDE && ActionFromUsize(2) == MARKER
    ensures ActionFromUsize(2) == DefaultAction
  {
  }
}
