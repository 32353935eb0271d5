/**
 * The in-memory store of raw log lines: per log id, the lines read so far,
 * the format the log was opened with, whether it is enabled and the source
 * that feeds it. The locks around each map are not modelled; every
 * operation is a function from the old store to the new one.
 */
module LogStore {
  import opened Wrappers
  import Maps

  /** The source controller is opaque to the store, so its type is a parameter. */
  datatype LogStore<S> = LogStore(
    rawLines: map<string, seq<string>>,
    format: map<string, string>,
    enabled: map<string, bool>,
    source: map<string, S>)

  function Empty<S>(): (r: LogStore<S>)
    ensures r.rawLines == map[] && r.format == map[] && r.enabled == map[] && r.source == map[]
  {
    LogStore(map[], map[], map[], map[])
  }

  /** `add_log`: registers the source and enabled flag; a format is recorded only when one is given. */
  function AddLog<S>(s: LogStore<S>, id: string, src: S, format: Option<string>, enabled: bool): (r: LogStore<S>)
    ensures GetSource(r, id) == Some(src)
    ensures id in r.enabled && r.enabled[id] == enabled
    ensures GetFormat(r, id) == if format.Some? then format else GetFormat(s, id)
    ensures forall k :: k != id ==> GetFormat(r, k) == GetFormat(s, k) && GetSource(r, k) == GetSource(s, k)
    ensures forall k :: k != id ==> (k in r.enabled <==> k in s.enabled)
    ensures forall k :: k != id && k in s.enabled ==> r.enabled[k] == s.enabled[k]
    ensures r.rawLines == s.rawLines
  {
    var s' := s.(source := s.source[id := src], enabled := s.enabled[id := enabled]);
    if format.Some? then s'.(format := s.format[id := format.value]) else s'
  }

  /** `get_lines`: a copy of the lines of the log, or nothing for an unknown id. */
  function GetLines<S>(s: LogStore<S>, id: string): (r: seq<string>)
    ensures id !in s.rawLines ==> r == []
    ensures id in s.rawLines ==> r == s.rawLines[id]
  {
    if id in s.rawLines then s.rawLines[id] else []
  }

  /** `add_line`: appends one line, creating the list on first use. */
  function AddLine<S>(s: LogStore<S>, id: string, line: string): (r: LogStore<S>)
    ensures GetLines(r, id) == GetLines(s, id) + [line]
    ensures forall k :: k != id ==> GetLines(r, k) == GetLines(s, k)
    ensures r.rawLines.Keys == s.rawLines.Keys + {id}
    ensures r.format == s.format && r.enabled == s.enabled && r.source == s.source
  {
    s.(rawLines := s.rawLines[id := GetLines(s, id) + [line]])
  }

  /**
   * `add_lines`: appends the lines, creating the list on first use, and
   * reports the range of positions the new lines now occupy.
   */
  function AddLines<S>(s: LogStore<S>, id: string, lines: seq<string>): (r: (LogStore<S>, (nat, nat)))
    ensures r.1.0 == |GetLines(s, id)| && r.1.1 == |GetLines(r.0, id)|
    ensures r.1.1 - r.1.0 == |lines|
    ensures GetLines(r.0, id)[..r.1.0] == GetLines(s, id)
    ensures GetLines(r.0, id)[r.1.0..r.1.1] == lines
    ensures forall k :: k != id ==> GetLines(r.0, k) == GetLines(s, k)
    ensures r.0.rawLines.Keys == s.rawLines.Keys + {id}
    ensures r.0.format == s.format && r.0.enabled == s.enabled && r.0.source == s.source
  {
    var current := GetLines(s, id);
    var updated := current + lines;
    (s.(rawLines := s.rawLines[id := updated]), (|current|, |updated|))
  }

  /** `add_line` is `add_lines` of a single line. */
  lemma AddLineIsAddLines<S>(s: LogStore<S>, id: string, line: string)
    ensures AddLine(s, id, line) == AddLines(s, id, [line]).0
  {
  }

  /**
   * `extract_lines`: moves the lines out and leaves an empty list behind.
   * The source unwraps the lookup, so the id must have received lines.
   */
  function ExtractLines<S>(s: LogStore<S>, id: string): (r: (LogStore<S>, seq<string>))
    requires id in s.rawLines
    ensures r.1 == GetLines(s, id)
    ensures id in r.0.rawLines && GetLines(r.0, id) == []
    ensures forall k :: k != id ==> GetLines(r.0, k) == GetLines(s, k)
    ensures r.0.rawLines.Keys == s.rawLines.Keys
    ensures r.0.format == s.format && r.0.enabled == s.enabled && r.0.source == s.source
  {
    (s.(rawLines := s.rawLines[id := []]), s.rawLines[id])
  }

  /** `get_format`: the format recorded for the log, if any. */
  function GetFormat<S>(s: LogStore<S>, id: string): (r: Option<string>)
    ensures r.Some? <==> id in s.format
    ensures r.Some? ==> r.value == s.format[id]
  {
    if id in s.format then Some(s.format[id]) else None
  }

  /** `get_source`: the source registered under the id (found by scanning the map), if any. */
  function GetSource<S>(s: LogStore<S>, id: string): (r: Option<S>)
    ensures r.Some? <==> id in s.source
    ensures r.Some? ==> r.value == s.source[id]
  {
    if exists k :: k in s.source && k == id then Some(s.source[id]) else None
  }

  /** `toggle_log`: flips the enabled flag of a known log; an unknown id changes nothing. */
  function ToggleLog<S>(s: LogStore<S>, id: string): (r: LogStore<S>)
    ensures id in s.enabled ==> id in r.enabled && r.enabled[id] == !s.enabled[id]
    ensures r.enabled.Keys == s.enabled.Keys
    ensures forall k :: k in s.enabled && k != id ==> r.enabled[k] == s.enabled[k]
    ensures r.rawLines == s.rawLines && r.format == s.format && r.source == s.source
  {
    if id in s.enabled then s.(enabled := s.enabled[id := !s.enabled[id]]) else s
  }

  lemma ToggleTwiceRestores<S>(s: LogStore<S>, id: string)
    ensures ToggleLog(ToggleLog(s, id), id) == s
  {
  }

  /**
   * `get_logs`: one (enabled, id, format) entry for every registered log,
   * in the map's iteration order.
   */
  method GetLogs<S>(s: LogStore<S>) returns (r: seq<(bool, string, Option<string>)>)
    ensures |r| == |s.enabled|
    ensures forall i :: 0 <= i < |r| ==>
      (r[i].1 in s.enabled && r[i].0 == s.enabled[r[i].1] && r[i].2 == GetFormat(s, r[i].1))
    ensures forall id :: id in s.enabled ==> exists i :: 0 <= i < |r| && r[i].1 == id
    ensures forall i, j :: 0 <= i < j < |r| ==> r[i].1 != r[j].1
  {
    var ids := Maps.Keys(s.enabled);
    r := seq(|ids|, i requires 0 <= i < |ids| => (s.enabled[ids[i]], ids[i], GetFormat(s, ids[i])));
    forall id | id in s.enabled
      ensures exists i :: 0 <= i < |r| && r[i].1 == id
    {
      var i :| 0 <= i < |ids| && ids[i] == id;
      assert r[i].1 == id;
    }
  }

  /** The number of lines held for all logs together. */
  ghost function TotalLines(m: map<string, seq<string>>): nat
  {
    SumOver(m, m.Keys)
  }

  /** The line counts of the logs in `ids`, summed in an arbitrary order. */
  ghost function SumOver(m: map<string, seq<string>>, ids: set<string>): nat
    requires ids <= m.Keys
  {
    if ids == {} then 0
    else
      var k :| k in ids;
      |m[k]| + SumOver(m, ids - {k})
  }

  /** The sum does not depend on the id it starts from. */
  lemma {:induction false} SumOverRemove(m: map<string, seq<string>>, ids: set<string>, k: string)
    requires ids <= m.Keys && k in ids
    ensures SumOver(m, ids) == |m[k]| + SumOver(m, ids - {k})
  {
    var j :| j in ids && SumOver(m, ids) == |m[j]| + SumOver(m, ids - {j});
    if j != k {
      SumOverRemove(m, ids - {j}, k);
      SumOverRemove(m, ids - {k}, j);
      assert ids - {j} - {k} == ids - {k} - {j};
    }
  }

  /** Only the line counts of the summed ids matter. */
  lemma {:induction false} SumOverAgree(m: map<string, seq<string>>, m': map<string, seq<string>>, ids: set<string>)
    requires ids <= m.Keys && ids <= m'.Keys
    requires forall k :: k in ids ==> |m[k]| == |m'[k]|
    ensures SumOver(m, ids) == SumOver(m', ids)
  {
    if ids != {} {
      var k :| k in ids && SumOver(m, ids) == |m[k]| + SumOver(m, ids - {k});
      SumOverRemove(m', ids, k);
      SumOverAgree(m, m', ids - {k});
    }
  }

  /** `get_total_lines`: the fold over every log's line count. */
  method GetTotalLines<S>(s: LogStore<S>) returns (total: nat)
    ensures total == TotalLines(s.rawLines)
  {
    total := 0;
    var rest := s.rawLines.Keys;
    while rest != {}
      invariant rest <= s.rawLines.Keys
      invariant total + SumOver(s.rawLines, rest) == TotalLines(s.rawLines)
      decreases |rest|
    {
      var k :| k in rest;
      SumOverRemove(s.rawLines, rest, k);
      total := total + |s.rawLines[k]|;
      rest := rest - {k};
    }
  }

  /** Appending lines to one log raises the total by exactly their number. */
  lemma AddLinesGrowsTotal<S>(s: LogStore<S>, id: string, lines: seq<string>)
    ensures TotalLines(AddLines(s, id, lines).0.rawLines) == TotalLines(s.rawLines) + |lines|
  {
    var m := s.rawLines;
    var m' := AddLines(s, id, lines).0.rawLines;
    SumOverRemove(m', m'.Keys, id);
    SumOverAgree(m, m', m.Keys - {id});
    assert m'.Keys - {id} == m.Keys - {id};
    if id in m {
      SumOverRemove(m, m.Keys, id);
    } else {
      assert m.Keys - {id} == m.Keys;
    }
  }

  /** Extracting a log's lines lowers the total by exactly their number. */
  lemma ExtractLinesShrinksTotal<S>(s: LogStore<S>, id: string)
    requires id in s.rawLines
    ensures TotalLines(ExtractLines(s, id).0.rawLines) + |GetLines(s, id)| == TotalLines(s.rawLines)
  {
    var m := s.rawLines;
    var m' := ExtractLines(s, id).0.rawLines;
    SumOverRemove(m', m'.Keys, id);
    SumOverRemove(m, m.Keys, id);
    SumOverAgree(m, m', m.Keys - {id});
  }
}
