/**
 * The filter decision (`domain/apply_filters.rs`). A line is matched against
 * an ordered list of compiled filters: a matching INCLUDE keeps it (even if
 * an EXCLUDE also matches), otherwise a matching EXCLUDE drops it, otherwise
 * it is kept only when the list has no INCLUDE at all. MARKER filters never
 * decide; each matching one repaints the kept line, so the last one wins.
 *
 * The Rust code walks lazily filtered iterators over the list; walking the
 * whole list and skipping the other actions is the same traversal.
 */
module ApplyFilters {
  import opened Wrappers
  import opened Regex
  import opened LogLines
  import opened Filters

  /** The text a key designates (`log_line.get(key).unwrap()` for a valid key). */
  function Field(line: LogLine, key: string): string {
    Get(line, key).GetOr("")
  }

  predicate AllWellKeyed(fs: seq<LogFilter>) {
    forall i :: 0 <= i < |fs| ==> WellKeyed(fs[i])
  }

  /** Reference meaning of a match: the filter has pairs and every pair's regex matches its field. */
  predicate Matches(engine: RegexEngine, f: LogFilter, line: LogLine) {
    && |f.filters| > 0
    && forall i :: 0 <= i < |f.filters| ==> engine.isMatch(f.filters[i].1.pattern, Field(line, f.filters[i].0))
  }

  /**
   * The loop of `filter_line`: `is_match` starts false, takes the result of each
   * pair in turn and the loop stops at the first pair that fails.
   */
  function MatchLoop(engine: RegexEngine, pairs: seq<(string, Regex)>, line: LogLine, isMatch: bool): (r: bool)
    ensures |pairs| == 0 ==> r == isMatch
    ensures |pairs| > 0 ==> (r <==> forall i :: 0 <= i < |pairs| ==> engine.isMatch(pairs[i].1.pattern, Field(line, pairs[i].0)))
  {
    if |pairs| == 0 then isMatch
    else
      var m := engine.isMatch(pairs[0].1.pattern, Field(line, pairs[0].0));
      if !m then false else MatchLoop(engine, pairs[1..], line, m)
  }

  /** `filter_line`: reports whether the filter matches, painting the filter colour on a match. */
  function FilterLine(engine: RegexEngine, f: LogFilter, line: LogLine): (r: (bool, LogLine))
    requires WellKeyed(f)
    ensures r.0 <==> Matches(engine, f, line)
    ensures r.0 ==> r.1 == line.(color := f.color)
    ensures !r.0 ==> r.1 == line
  {
    var m := MatchLoop(engine, f.filters, line, false);
    (m, if m then line.(color := f.color) else line)
  }

  predicate MarkerHit(engine: RegexEngine, f: LogFilter, line: LogLine) {
    f.action == MARKER && Matches(engine, f, line)
  }

  predicate IncludeHit(engine: RegexEngine, f: LogFilter, line: LogLine) {
    f.action == INCLUDE && Matches(engine, f, line)
  }

  predicate ExcludeHit(engine: RegexEngine, f: LogFilter, line: LogLine) {
    f.action == EXCLUDE && Matches(engine, f, line)
  }

  lemma MatchesIgnoresColor(engine: RegexEngine, f: LogFilter, line: LogLine, c: Option<Rgb>)
    ensures Matches(engine, f, line.(color := c)) == Matches(engine, f, line)
  {
    forall key ensures Field(line.(color := c), key) == Field(line, key) {
      GetIgnoresColor(line, key, c);
    }
  }

  /** The marker pass: every MARKER of the list, in order, repaints the line when it matches. */
  function ApplyMarkers(engine: RegexEngine, fs: seq<LogFilter>, line: LogLine): (r: LogLine)
    requires AllWellKeyed(fs)
    ensures SameText(r, line)
    ensures (forall j :: 0 <= j < |fs| ==> !MarkerHit(engine, fs[j], line)) ==> r.color == line.color
    ensures forall j :: (0 <= j < |fs| && MarkerHit(engine, fs[j], line)
              && (forall k :: j < k < |fs| ==> !MarkerHit(engine, fs[k], line))) ==> r.color == fs[j].color
  {
    if |fs| == 0 then line
    else
      var next := if fs[0].action == MARKER then FilterLine(engine, fs[0], line).1 else line;
      forall k | 0 <= k < |fs| ensures MarkerHit(engine, fs[k], next) == MarkerHit(engine, fs[k], line) {
        MatchesIgnoresColor(engine, fs[k], line, next.color);
        assert next == line.(color := next.color);
      }
      ApplyMarkers(engine, fs[1..], next)
  }

  /**
   * The INCLUDE loop of `apply_filters`: the first matching INCLUDE of `rest`
   * paints its colour, the marker pass over the whole list `all` follows, and
   * the line is returned.
   */
  function TryIncludes(engine: RegexEngine, rest: seq<LogFilter>, all: seq<LogFilter>, line: LogLine): (r: Option<LogLine>)
    requires AllWellKeyed(rest) && AllWellKeyed(all)
    ensures r.Some? <==> exists i :: 0 <= i < |rest| && IncludeHit(engine, rest[i], line)
    ensures r.Some? ==> exists i :: (0 <= i < |rest| && IncludeHit(engine, rest[i], line)
              && (forall k :: 0 <= k < i ==> !IncludeHit(engine, rest[k], line))
              && r.value == ApplyMarkers(engine, all, line.(color := rest[i].color)))
  {
    if |rest| == 0 then None
    else if rest[0].action == INCLUDE && FilterLine(engine, rest[0], line).0 then
      Some(ApplyMarkers(engine, all, FilterLine(engine, rest[0], line).1))
    else
      var r := TryIncludes(engine, rest[1..], all, line);
      assert forall i :: 1 <= i < |rest| ==> rest[i] == rest[1..][i - 1];
      r
  }

  /** The EXCLUDE loop: does some EXCLUDE filter match? */
  function AnyExclude(engine: RegexEngine, fs: seq<LogFilter>, line: LogLine): (r: bool)
    requires AllWellKeyed(fs)
    ensures r <==> exists i :: 0 <= i < |fs| && ExcludeHit(engine, fs[i], line)
  {
    if |fs| == 0 then false
    else if fs[0].action == EXCLUDE && FilterLine(engine, fs[0], line).0 then true
    else
      var r := AnyExclude(engine, fs[1..], line);
      assert forall i :: 1 <= i < |fs| ==> fs[i] == fs[1..][i - 1];
      r
  }

  /** `include_filters.count()` */
  function IncludeCount(fs: seq<LogFilter>): (n: nat)
    ensures n == 0 <==> forall i :: 0 <= i < |fs| ==> fs[i].action != INCLUDE
    ensures n <= |fs|
  {
    if |fs| == 0 then 0
    else
      var n := IncludeCount(fs[1..]);
      assert forall i :: 1 <= i < |fs| ==> fs[i] == fs[1..][i - 1];
      (if fs[0].action == INCLUDE then 1 else 0) + n
  }

  /** Reference decision: kept iff some INCLUDE matches, or no EXCLUDE matches and there is no INCLUDE. */
  predicate Kept(engine: RegexEngine, fs: seq<LogFilter>, line: LogLine) {
    || (exists i :: 0 <= i < |fs| && IncludeHit(engine, fs[i], line))
    || (&& (forall i :: 0 <= i < |fs| ==> !ExcludeHit(engine, fs[i], line))
        && (forall i :: 0 <= i < |fs| ==> fs[i].action != INCLUDE))
  }

  /** `apply_filters(filters, line)`: the kept, recoloured line, or `None` when it is filtered out. */
  function ApplyFilters(engine: RegexEngine, fs: seq<LogFilter>, line: LogLine): (r: Option<LogLine>)
    requires AllWellKeyed(fs)
    ensures r.Some? <==> Kept(engine, fs, line)
    ensures r.Some? ==> SameText(r.value, line)
  {
    match TryIncludes(engine, fs, fs, line)
    case Some(kept) => Some(kept)
    case None =>
      if AnyExclude(engine, fs, line) then None
      else if IncludeCount(fs) == 0 then Some(ApplyMarkers(engine, fs, line))
      else None
  }

  /** A matching INCLUDE keeps the line even when an EXCLUDE matches too. */
  lemma IncludeBeatsExclude(engine: RegexEngine, fs: seq<LogFilter>, line: LogLine, i: nat, j: nat)
    requires AllWellKeyed(fs)
    requires i < |fs| && IncludeHit(engine, fs[i], line)
    requires j < |fs| && ExcludeHit(engine, fs[j], line)
    ensures ApplyFilters(engine, fs, line).Some?
  {
  }

  /** Without a matching INCLUDE, a matching EXCLUDE drops the line. */
  lemma ExcludeDrops(engine: RegexEngine, fs: seq<LogFilter>, line: LogLine, j: nat)
    requires AllWellKeyed(fs)
    requires forall i :: 0 <= i < |fs| ==> !IncludeHit(engine, fs[i], line)
    requires j < |fs| && ExcludeHit(engine, fs[j], line)
    ensures ApplyFilters(engine, fs, line).None?
  {
  }

  /** With INCLUDE filters present but none matching, the line is dropped. */
  lemma UnmatchedIncludesDrop(engine: RegexEngine, fs: seq<LogFilter>, line: LogLine, i: nat)
    requires AllWellKeyed(fs)
    requires i < |fs| && fs[i].action == INCLUDE
    requires forall k :: 0 <= k < |fs| ==> !IncludeHit(engine, fs[k], line)
    ensures ApplyFilters(engine, fs, line).None?
  {
  }

  /** The colour a kept line ends with when no MARKER matches: the first matching INCLUDE's, else the original. */
  predicate BaseColor(engine: RegexEngine, fs: seq<LogFilter>, line: LogLine, c: Option<Rgb>) {
    if exists i :: 0 <= i < |fs| && IncludeHit(engine, fs[i], line) then
      exists i :: 0 <= i < |fs| && IncludeHit(engine, fs[i], line)
        && (forall k :: 0 <= k < i ==> !IncludeHit(engine, fs[k], line)) && c == fs[i].color
    else c == line.color
  }

  /**
   * A kept line keeps every text field; its colour is that of the last matching
   * MARKER in list order, or, when no MARKER matches, the first matching
   * INCLUDE's colour, or else the colour it came with.
   */
  lemma ApplyFiltersColor(engine: RegexEngine, fs: seq<LogFilter>, line: LogLine)
    requires AllWellKeyed(fs)
    ensures var r := ApplyFilters(engine, fs, line);
            r.Some? ==>
              && SameText(r.value, line)
              && ((forall j :: 0 <= j < |fs| ==> !MarkerHit(engine, fs[j], line)) ==> BaseColor(engine, fs, line, r.value.color))
              && (forall j :: (0 <= j < |fs| && MarkerHit(engine, fs[j], line)
                    && (forall k :: j < k < |fs| ==> !MarkerHit(engine, fs[k], line))) ==> r.value.color == fs[j].color)
  {
    var r := ApplyFilters(engine, fs, line);
    var t := TryIncludes(engine, fs, fs, line);
    if t.Some? {
      var i :| 0 <= i < |fs| && IncludeHit(engine, fs[i], line)
              && (forall k :: 0 <= k < i ==> !IncludeHit(engine, fs[k], line))
              && t.value == ApplyMarkers(engine, fs, line.(color := fs[i].color));
      var painted := line.(color := fs[i].color);
      forall j | 0 <= j < |fs| ensures MarkerHit(engine, fs[j], painted) == MarkerHit(engine, fs[j], line) {
        MatchesIgnoresColor(engine, fs[j], line, fs[i].color);
      }
    }
  }

  /** MARKER filters never decide: adding one anywhere keeps the keep/drop decision. */
  lemma MarkerNeverDecides(engine: RegexEngine, fs: seq<LogFilter>, line: LogLine, m: LogFilter, at: nat)
    requires AllWellKeyed(fs) && WellKeyed(m) && m.action == MARKER && at <= |fs|
    ensures AllWellKeyed(fs[..at] + [m] + fs[at..])
    ensures ApplyFilters(engine, fs[..at] + [m] + fs[at..], line).Some? == ApplyFilters(engine, fs, line).Some?
  {
    KeptIgnoresMarker(engine, fs, line, m, at);
  }

  lemma KeptIgnoresMarker(engine: RegexEngine, fs: seq<LogFilter>, line: LogLine, m: LogFilter, at: nat)
    requires m.action == MARKER && at <= |fs|
    ensures (forall i :: 0 <= i < |fs| ==> fs[i] in fs[..at] + [m] + fs[at..])
    ensures Kept(engine, fs[..at] + [m] + fs[at..], line) <==> Kept(engine, fs, line)
  {
    var gs := fs[..at] + [m] + fs[at..];
    assert forall i :: 0 <= i < |gs| ==> gs[i] in fs || gs[i] == m;
    assert forall i :: 0 <= i < |fs| ==> fs[i] in gs;
  }

  /** Adding an EXCLUDE filter can only drop more lines. */
  lemma ExcludeOnlyShrinks(engine: RegexEngine, fs: seq<LogFilter>, line: LogLine, x: LogFilter)
    requires AllWellKeyed(fs) && WellKeyed(x) && x.action == EXCLUDE
    ensures AllWellKeyed(fs + [x])
    ensures ApplyFilters(engine, fs + [x], line).Some? ==> ApplyFilters(engine, fs, line).Some?
  {
    KeptWithoutExclude(engine, fs, line, x);
  }

  lemma KeptWithoutExclude(engine: RegexEngine, fs: seq<LogFilter>, line: LogLine, x: LogFilter)
    requires x.action == EXCLUDE
    ensures Kept(engine, fs + [x], line) ==> Kept(engine, fs, line)
  {
    var gs := fs + [x];
    assert forall i :: 0 <= i < |fs| ==> gs[i] == fs[i];
    if exists i :: 0 <= i < |gs| && IncludeHit(engine, gs[i], line) {
      var i :| 0 <= i < |gs| && IncludeHit(engine, gs[i], line);
      assert i < |fs|;
    }
  }
}
