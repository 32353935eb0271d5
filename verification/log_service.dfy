/**
 * The sequential steps of the log service (`services/log_service.rs`): the
 * raw-line bookkeeping, the format, filter and search stages a chunk of
 * lines goes through, and `add_format`. The consumer thread, the channels
 * and the parallel chunk map are not modelled; `ProcessChunk` is the work
 * done for one chunk and `ChunksMerge` shows why merging the chunks in
 * order gives the same result as processing the lines in one piece.
 */
module LogService {
  import opened Wrappers
  import opened Regex
  import opened LogLines
  import opened Filters
  import opened Formats
  import opened Seqs
  import LogStore
  import ProcessingStore
  import Decimal
  import ApplyFormat
  import ApplyFilters
  import ApplySearch

  /**
   * `process_raw_lines`: stores the lines under the path and returns the
   * stored format of the path, the positions the lines now occupy and the
   * lines themselves.
   */
  function ProcessRawLines<S>(logs: LogStore.LogStore<S>, path: string, lines: seq<string>)
    : (r: (LogStore.LogStore<S>, Option<string>, (nat, nat), seq<string>))
    ensures r.1 == LogStore.GetFormat(logs, path)
    ensures r.2.1 - r.2.0 == |lines| && r.2.0 == |LogStore.GetLines(logs, path)|
    ensures LogStore.GetLines(r.0, path) == LogStore.GetLines(logs, path) + lines
    ensures r.3 == lines
  {
    var (logs', range) := LogStore.AddLines(logs, path, lines);
    assert LogStore.GetLines(logs', path) == LogStore.GetLines(logs', path)[..range.0] + LogStore.GetLines(logs', path)[range.0..range.1];
    (logs', LogStore.GetFormat(logs', path), range, lines)
  }

  /** Pairs each line with its ingestion index, counting up from `start` (`lines.zip(range)`). */
  function Indexed(lines: seq<string>, start: nat): (r: seq<(string, nat)>)
    ensures |r| == |lines|
    ensures forall i :: 0 <= i < |r| ==> r[i] == (lines[i], start + i)
  {
    seq(|lines|, i requires 0 <= i < |lines| => (lines[i], start + i))
  }

  /** Every format in the store compiles: what `Regex::new(&format).unwrap()` relies on. */
  predicate FormatsCompile(engine: RegexEngine, ps: ProcessingStore.ProcessingStore) {
    forall alias :: alias in ps.formats ==> engine.compiles(ps.formats[alias])
  }

  /**
   * The regex for a log's format alias: none when the log has no format or
   * the alias is unknown. The source unwraps the compilation, so a stored
   * format that does not compile is excluded by the requirement.
   */
  function FormatRegex(engine: RegexEngine, ps: ProcessingStore.ProcessingStore, format: Option<string>): (r: Option<Regex>)
    requires format.Some? && format.value in ps.formats ==> engine.compiles(ps.formats[format.value])
    ensures r.Some? <==> format.Some? && ProcessingStore.GetFormat(ps, format.value).Some?
    ensures r.Some? ==> r.value.pattern == ps.formats[format.value]
  {
    if format.None? then None
    else match ProcessingStore.GetFormat(ps, format.value)
      case Some(f) => Compile(engine, f)
      case None => None
  }

  /** The loop of the service's `apply_format`: one structured line per raw line, in order. */
  function FormatLines(engine: RegexEngine, re: Option<Regex>, lineIndex: seq<(string, nat)>): (r: seq<LogLine>)
    ensures |r| == |lineIndex|
    ensures forall i :: 0 <= i < |r| ==> r[i] == ApplyFormat.ApplyFormat(engine, re, lineIndex[i].0, lineIndex[i].1)
    ensures forall i :: 0 <= i < |r| ==> r[i].index == Decimal.NatToString(lineIndex[i].1) && r[i].color == None
  {
    seq(|lineIndex|, i requires 0 <= i < |lineIndex| => ApplyFormat.ApplyFormat(engine, re, lineIndex[i].0, lineIndex[i].1))
  }

  /** The service's `apply_format`: look the alias up, compile it, structure every line. */
  function ServiceApplyFormat(engine: RegexEngine, ps: ProcessingStore.ProcessingStore, format: Option<string>, lineIndex: seq<(string, nat)>)
    : (r: seq<LogLine>)
    requires format.Some? && format.value in ps.formats ==> engine.compiles(ps.formats[format.value])
    ensures |r| == |lineIndex|
    ensures forall i :: 0 <= i < |r| ==>
      r[i] == ApplyFormat.ApplyFormat(engine, FormatRegex(engine, ps, format), lineIndex[i].0, lineIndex[i].1)
    ensures forall i :: 0 <= i < |r| ==> r[i].index == Decimal.NatToString(lineIndex[i].1) && r[i].color == None
    ensures (format.None? || format.value !in ps.formats) ==>
      forall i :: 0 <= i < |r| ==> r[i] == ApplyFormat.DefaultLogLine(lineIndex[i].0, lineIndex[i].1)
  {
    var re := FormatRegex(engine, ps, format);
    var r := FormatLines(engine, re, lineIndex);
    assert re.None? ==> forall i :: 0 <= i < |r| ==> r[i] == ApplyFormat.DefaultLogLine(lineIndex[i].0, lineIndex[i].1) by {
      if re.None? {
        forall i | 0 <= i < |r| ensures r[i] == ApplyFormat.DefaultLogLine(lineIndex[i].0, lineIndex[i].1) {
          ApplyFormat.NoFormatFallsBack(engine, lineIndex[i].0, lineIndex[i].1);
        }
      }
    }
    r
  }

  function IsEnabled(entry: (bool, Filter)): bool { entry.0 }

  /** `LogFilter::from` applied to every entry of a listing. */
  function Convert(engine: RegexEngine, listing: seq<(bool, Filter)>): (r: seq<LogFilter>)
    ensures |r| == |listing|
    ensures forall i :: 0 <= i < |r| ==> r[i] == FromFilter(engine, listing[i].1)
  {
    seq(|listing|, i requires 0 <= i < |listing| => FromFilter(engine, listing[i].1))
  }

  /**
   * The filters the service hands to `apply_filters`: the enabled entries
   * of the listing, in listing order, converted.
   */
  function EnabledFilters(engine: RegexEngine, listing: seq<(bool, Filter)>): (r: seq<LogFilter>)
    ensures r == Convert(engine, Select(listing, IsEnabled))
    ensures ApplyFilters.AllWellKeyed(r)
  {
    if |listing| == 0 then []
    else
      var rest := EnabledFilters(engine, listing[1..]);
      if listing[0].0 then
        var sel := Select(listing[1..], IsEnabled);
        assert Select(listing, IsEnabled) == [listing[0]] + sel;
        ConvertCons(engine, listing[0], sel);
        [FromFilter(engine, listing[0].1)] + rest
      else rest
  }

  lemma ConvertCons(engine: RegexEngine, e: (bool, Filter), listing: seq<(bool, Filter)>)
    ensures Convert(engine, [e] + listing) == [FromFilter(engine, e.1)] + Convert(engine, listing)
  {
    var l := Convert(engine, [e] + listing);
    var r := [FromFilter(engine, e.1)] + Convert(engine, listing);
    assert |l| == |r|;
    forall i | 0 <= i < |l| ensures l[i] == r[i] {
      if i > 0 {
        assert ([e] + listing)[i] == listing[i - 1];
      }
    }
  }

  /** The loop of the service's `apply_filters`: the kept lines, recoloured, in input order. */
  function FilterLines(engine: RegexEngine, fs: seq<LogFilter>, lines: seq<LogLine>): (r: seq<LogLine>)
    requires ApplyFilters.AllWellKeyed(fs)
    ensures |r| <= |lines|
    ensures forall i :: 0 <= i < |r| ==>
      exists j :: 0 <= j < |lines| && ApplyFilters.ApplyFilters(engine, fs, lines[j]) == Some(r[i])
  {
    FilterMap(lines, Outcome(engine, fs))
  }

  /** The decision of `apply_filters` on one line, as a function value. */
  function Outcome(engine: RegexEngine, fs: seq<LogFilter>): (f: LogLine -> Option<LogLine>)
    requires ApplyFilters.AllWellKeyed(fs)
    ensures forall l :: f(l) == ApplyFilters.ApplyFilters(engine, fs, l)
  {
    l => ApplyFilters.ApplyFilters(engine, fs, l)
  }

  /** The service's `apply_filters`, given the store's filter listing. */
  function ServiceApplyFilters(engine: RegexEngine, listing: seq<(bool, Filter)>, lines: seq<LogLine>): (r: seq<LogLine>)
    ensures |r| <= |lines|
    ensures forall i :: 0 <= i < |r| ==> exists j :: 0 <= j < |lines| && SameText(r[i], lines[j])
  {
    var fs := EnabledFilters(engine, listing);
    var r := FilterLines(engine, fs, lines);
    assert forall i :: 0 <= i < |r| ==> exists j :: 0 <= j < |lines| && SameText(r[i], lines[j]) by {
      forall i | 0 <= i < |r| ensures exists j :: 0 <= j < |lines| && SameText(r[i], lines[j]) {
        var j :| 0 <= j < |lines| && ApplyFilters.ApplyFilters(engine, fs, lines[j]) == Some(r[i]);
        assert SameText(r[i], lines[j]);
      }
    }
    r
  }

  /**
   * The output of the filter loop is exactly the domain decision applied to
   * the kept lines, in their input order: `p` is the decision as a predicate.
   */
  lemma FilterLinesAreKeptLines(engine: RegexEngine, fs: seq<LogFilter>, lines: seq<LogLine>, p: LogLine -> bool)
    requires ApplyFilters.AllWellKeyed(fs)
    requires forall l :: p(l) <==> ApplyFilters.Kept(engine, fs, l)
    ensures |FilterLines(engine, fs, lines)| == |Select(lines, p)|
    ensures forall i :: 0 <= i < |Select(lines, p)| ==>
      ApplyFilters.ApplyFilters(engine, fs, Select(lines, p)[i]) == Some(FilterLines(engine, fs, lines)[i])
  {
    FilterMapOfSelect(lines, Outcome(engine, fs), p);
  }

  /** A disabled filter has no effect on the outcome. */
  lemma DisabledFilterIgnored(engine: RegexEngine, listing: seq<(bool, Filter)>, f: Filter, at: nat, lines: seq<LogLine>)
    requires at <= |listing|
    ensures ServiceApplyFilters(engine, listing[..at] + [(false, f)] + listing[at..], lines) == ServiceApplyFilters(engine, listing, lines)
  {
    EnabledFiltersSkipsDisabled(engine, listing, f, at);
  }

  lemma {:induction false} EnabledFiltersSkipsDisabled(engine: RegexEngine, listing: seq<(bool, Filter)>, f: Filter, at: nat)
    requires at <= |listing|
    ensures EnabledFilters(engine, listing[..at] + [(false, f)] + listing[at..]) == EnabledFilters(engine, listing)
  {
    var l' := listing[..at] + [(false, f)] + listing[at..];
    if at == 0 {
      assert l'[1..] == listing;
    } else {
      assert l'[0] == listing[0];
      assert l'[1..] == listing[1..][..at - 1] + [(false, f)] + listing[1..][at - 1..];
      EnabledFiltersSkipsDisabled(engine, listing[1..], f, at - 1);
    }
  }

  /**
   * The service's `apply_search`: the lines pass through unchanged, and the
   * search result is the lines the query matches, in order. Without a query,
   * or with one that does not compile, the search result is empty.
   */
  function ServiceApplySearch(engine: RegexEngine, query: Option<string>, lines: seq<LogLine>): (r: (seq<LogLine>, seq<LogLine>))
    ensures r.0 == lines && |r.1| <= |lines|
    ensures (query.None? || !engine.compiles(query.value)) ==> r.1 == []
    ensures query.Some? && engine.compiles(query.value) ==>
      && (forall i :: 0 <= i < |r.1| ==> r.1[i] in lines && ApplySearch.ApplySearch(engine, Regex(query.value), r.1[i]))
      && (forall j :: 0 <= j < |lines| && ApplySearch.ApplySearch(engine, Regex(query.value), lines[j]) ==> lines[j] in r.1)
  {
    match query
    case None => (lines, [])
    case Some(q) =>
      match Compile(engine, q)
      case None => (lines, [])
      case Some(re) => (lines, Select(lines, Searcher(engine, re)))
  }

  /** The search decision as a predicate on lines. */
  function Searcher(engine: RegexEngine, re: Regex): (p: LogLine -> bool)
    ensures forall l :: p(l) == ApplySearch.ApplySearch(engine, re, l)
  {
    l => ApplySearch.ApplySearch(engine, re, l)
  }

  /**
   * The search result holds each line the query matches as often as the
   * input does, and no other line; with `SearchKeepsOrder` it is exactly
   * the matching lines in input order.
   */
  lemma SearchCounts(engine: RegexEngine, q: string, lines: seq<LogLine>)
    requires engine.compiles(q)
    ensures forall l :: multiset(ServiceApplySearch(engine, Some(q), lines).1)[l]
                     == if ApplySearch.ApplySearch(engine, Regex(q), l) then multiset(lines)[l] else 0
  {
    SelectCounts(lines, Searcher(engine, Regex(q)));
  }

  /** The search result keeps the relative order of the lines it takes. */
  lemma SearchKeepsOrder(engine: RegexEngine, q: string, lines: seq<LogLine>)
    requires engine.compiles(q)
    ensures IsSubsequence(ServiceApplySearch(engine, Some(q), lines).1, lines)
  {
    SelectIsSubsequence(lines, Searcher(engine, Regex(q)));
  }

  /**
   * One chunk through the three stages, as the consumer's parallel map does
   * it: the filtered lines and the search lines of the chunk.
   */
  function ProcessChunk(engine: RegexEngine, ps: ProcessingStore.ProcessingStore, format: Option<string>,
                        listing: seq<(bool, Filter)>, query: Option<string>, chunk: seq<(string, nat)>)
    : (r: (seq<LogLine>, seq<LogLine>))
    requires format.Some? && format.value in ps.formats ==> engine.compiles(ps.formats[format.value])
    ensures |r.1| <= |r.0| <= |chunk|
    ensures forall i :: 0 <= i < |r.0| ==> CarriesIndexOf(r.0[i], chunk)
    ensures forall i :: 0 <= i < |r.1| ==> r.1[i] in r.0
  {
    ServiceApplySearch(engine, query, FilteredChunk(engine, ps, format, listing, chunk))
  }

  /** The format and filter stages of a chunk. */
  function FilteredChunk(engine: RegexEngine, ps: ProcessingStore.ProcessingStore, format: Option<string>,
                         listing: seq<(bool, Filter)>, chunk: seq<(string, nat)>)
    : (r: seq<LogLine>)
    requires format.Some? && format.value in ps.formats ==> engine.compiles(ps.formats[format.value])
    ensures |r| <= |chunk|
    ensures forall i :: 0 <= i < |r| ==> CarriesIndexOf(r[i], chunk)
  {
    var formatted := ServiceApplyFormat(engine, ps, format, chunk);
    var filtered := ServiceApplyFilters(engine, listing, formatted);
    IndexesSurviveFilters(filtered, formatted, chunk);
    filtered
  }

  /** The line carries the ingestion index of one of the chunk's lines. */
  predicate CarriesIndexOf(l: LogLine, chunk: seq<(string, nat)>) {
    exists j :: 0 <= j < |chunk| && l.index == Decimal.NatToString(chunk[j].1)
  }

  lemma IndexesSurviveFilters(filtered: seq<LogLine>, formatted: seq<LogLine>, chunk: seq<(string, nat)>)
    requires |formatted| == |chunk|
    requires forall j :: 0 <= j < |formatted| ==> formatted[j].index == Decimal.NatToString(chunk[j].1)
    requires forall i :: 0 <= i < |filtered| ==> exists j :: 0 <= j < |formatted| && SameText(filtered[i], formatted[j])
    ensures forall i :: 0 <= i < |filtered| ==> CarriesIndexOf(filtered[i], chunk)
  {
    forall i | 0 <= i < |filtered| ensures CarriesIndexOf(filtered[i], chunk) {
      var j :| 0 <= j < |formatted| && SameText(filtered[i], formatted[j]);
      assert filtered[i].index == filtered[i].(color := None).index;
      assert filtered[i].index == Decimal.NatToString(chunk[j].1);
    }
  }

  /**
   * The work the consumer does for one batch of raw lines whose first line
   * got ingestion index `start`: the lines are paired with their indexes and
   * go through the stages. Every stored line carries the index of one of the
   * batch's lines.
   */
  function ProcessBatch(engine: RegexEngine, ps: ProcessingStore.ProcessingStore, format: Option<string>,
                        listing: seq<(bool, Filter)>, query: Option<string>, lines: seq<string>, start: nat)
    : (r: (seq<LogLine>, seq<LogLine>))
    requires format.Some? && format.value in ps.formats ==> engine.compiles(ps.formats[format.value])
    ensures |r.1| <= |r.0| <= |lines|
    ensures forall i :: 0 <= i < |r.0| ==> IndexIn(r.0[i], start, |lines|)
    ensures forall i :: 0 <= i < |r.1| ==> r.1[i] in r.0
  {
    var elements := Indexed(lines, start);
    var r := ProcessChunk(engine, ps, format, listing, query, elements);
    IndexesInBatch(r.0, lines, start);
    r
  }

  /** The line carries one of the `n` ingestion indexes that start at `start`. */
  predicate IndexIn(l: LogLine, start: nat, n: nat) {
    exists k: nat :: start <= k < start + n && l.index == Decimal.NatToString(k)
  }

  lemma IndexesInBatch(out: seq<LogLine>, lines: seq<string>, start: nat)
    requires forall i :: 0 <= i < |out| ==>
      CarriesIndexOf(out[i], Indexed(lines, start))
    ensures forall i :: 0 <= i < |out| ==> IndexIn(out[i], start, |lines|)
  {
    var elements := Indexed(lines, start);
    forall i | 0 <= i < |out| ensures IndexIn(out[i], start, |lines|) {
      var j :| 0 <= j < |elements| && out[i].index == Decimal.NatToString(elements[j].1);
      var k := elements[j].1;
      assert start <= k < start + |lines| && out[i].index == Decimal.NatToString(k);
    }
  }

  /** Splitting a batch pairs the second part with the indexes that follow the first. */
  lemma IndexedAppend(a: seq<string>, b: seq<string>, start: nat)
    ensures Indexed(a + b, start) == Indexed(a, start) + Indexed(b, start + |a|)
  {
    var l, r := Indexed(a + b, start), Indexed(a, start) + Indexed(b, start + |a|);
    forall i | 0 <= i < |l| ensures l[i] == r[i] {
      if i >= |a| {
        assert (a + b)[i] == b[i - |a|];
      } else {
        assert (a + b)[i] == a[i];
      }
    }
  }

  /**
   * A batch cut in two and processed part by part, the second part starting
   * at the index after the first, stores what the whole batch stores.
   */
  lemma BatchInChunks(engine: RegexEngine, ps: ProcessingStore.ProcessingStore, format: Option<string>,
                      listing: seq<(bool, Filter)>, query: Option<string>, a: seq<string>, b: seq<string>, start: nat)
    requires format.Some? && format.value in ps.formats ==> engine.compiles(ps.formats[format.value])
    ensures ProcessBatch(engine, ps, format, listing, query, a + b, start).0
         == ProcessBatch(engine, ps, format, listing, query, a, start).0 + ProcessBatch(engine, ps, format, listing, query, b, start + |a|).0
    ensures ProcessBatch(engine, ps, format, listing, query, a + b, start).1
         == ProcessBatch(engine, ps, format, listing, query, a, start).1 + ProcessBatch(engine, ps, format, listing, query, b, start + |a|).1
  {
    IndexedAppend(a, b, start);
    ChunksMerge(engine, ps, format, listing, query, Indexed(a, start), Indexed(b, start + |a|));
  }

  lemma FilterLinesAppend(engine: RegexEngine, fs: seq<LogFilter>, a: seq<LogLine>, b: seq<LogLine>)
    requires ApplyFilters.AllWellKeyed(fs)
    ensures FilterLines(engine, fs, a + b) == FilterLines(engine, fs, a) + FilterLines(engine, fs, b)
  {
    FilterMapAppend(a, b, Outcome(engine, fs));
  }

  /**
   * Processing two chunks and appending their results in chunk order gives
   * the same filtered and search lines as processing the lines in one piece,
   * so the chunking of the parallel map does not change what is stored.
   */
  lemma ChunksMerge(engine: RegexEngine, ps: ProcessingStore.ProcessingStore, format: Option<string>,
                    listing: seq<(bool, Filter)>, query: Option<string>, a: seq<(string, nat)>, b: seq<(string, nat)>)
    requires format.Some? && format.value in ps.formats ==> engine.compiles(ps.formats[format.value])
    ensures ProcessChunk(engine, ps, format, listing, query, a + b).0
         == ProcessChunk(engine, ps, format, listing, query, a).0 + ProcessChunk(engine, ps, format, listing, query, b).0
    ensures ProcessChunk(engine, ps, format, listing, query, a + b).1
         == ProcessChunk(engine, ps, format, listing, query, a).1 + ProcessChunk(engine, ps, format, listing, query, b).1
  {
    var re := FormatRegex(engine, ps, format);
    var fa, fb := FormatLines(engine, re, a), FormatLines(engine, re, b);
    FormatLinesAppend(engine, re, a, b);
    ServiceFiltersAppend(engine, listing, fa, fb);
    ServiceSearchAppend(engine, query, ServiceApplyFilters(engine, listing, fa), ServiceApplyFilters(engine, listing, fb));
  }

  lemma ServiceFiltersAppend(engine: RegexEngine, listing: seq<(bool, Filter)>, a: seq<LogLine>, b: seq<LogLine>)
    ensures ServiceApplyFilters(engine, listing, a + b) == ServiceApplyFilters(engine, listing, a) + ServiceApplyFilters(engine, listing, b)
  {
    FilterLinesAppend(engine, EnabledFilters(engine, listing), a, b);
  }

  lemma ServiceSearchAppend(engine: RegexEngine, query: Option<string>, a: seq<LogLine>, b: seq<LogLine>)
    ensures ServiceApplySearch(engine, query, a + b).1 == ServiceApplySearch(engine, query, a).1 + ServiceApplySearch(engine, query, b).1
  {
    if query.Some? && engine.compiles(query.value) {
      SelectAppend(a, b, Searcher(engine, Regex(query.value)));
    }
  }

  lemma FormatLinesAppend(engine: RegexEngine, re: Option<Regex>, a: seq<(string, nat)>, b: seq<(string, nat)>)
    ensures FormatLines(engine, re, a + b) == FormatLines(engine, re, a) + FormatLines(engine, re, b)
  {
    var l := FormatLines(engine, re, a + b);
    var r := FormatLines(engine, re, a) + FormatLines(engine, re, b);
    forall i | 0 <= i < |l| ensures l[i] == r[i] {
      if i >= |a| {
        assert (a + b)[i] == b[i - |a|];
      } else {
        assert (a + b)[i] == a[i];
      }
    }
  }

  /**
   * `add_format`: validates the pair with `Format::new` and stores it; on an
   * error the store is left as it was and the error is returned.
   */
  function AddFormat(engine: RegexEngine, ps: ProcessingStore.ProcessingStore, alias: string, regex: string)
    : (r: (ProcessingStore.ProcessingStore, Result<(), FormatError>))
    ensures r.1.Ok? <==> NewFormat(engine, alias, regex).Ok?
    ensures r.1.Ok? ==> ProcessingStore.GetFormat(r.0, alias) == Some(regex)
    ensures r.1.Ok? ==> forall k :: k != alias ==> ProcessingStore.GetFormat(r.0, k) == ProcessingStore.GetFormat(ps, k)
    ensures r.1.Err? ==> r.0 == ps && r.1.error == NewFormat(engine, alias, regex).error
    ensures r.0.filters == ps.filters
  {
    match NewFormat(engine, alias, regex)
    case Ok(format) => (ProcessingStore.AddFormat(ps, format.alias, format.regex), Ok(()))
    case Err(e) => (ps, Err(e))
  }

  /**
   * Formats only enter the store through `add_format`, so every stored
   * format compiles and the unwrap in `apply_format` never fails.
   */
  lemma AddFormatKeepsFormatsCompiling(engine: RegexEngine, ps: ProcessingStore.ProcessingStore, alias: string, regex: string)
    requires FormatsCompile(engine, ps)
    ensures FormatsCompile(engine, AddFormat(engine, ps, alias, regex).0)
  {
  }
}
