# log-analyzer-pro, modelled in Dafny

This project models the sequential core of log-analyzer-pro, a terminal log viewer written in Rust. It covers:

- the ingestion pipeline of the log service: raw lines become indexed and formatted `LogLine`s, then pass through the enabled filters, then through the search query;
- the three stores: raw lines per source, formats and filters, and the filtered and searched results;
- the domain functions `apply_format`, `apply_filters` and `apply_search`;
- the styled log line used for search highlighting;
- the two selection tables of the terminal interface, including the lazily loaded one that slides a 1000-row window over a longer log;
- the pure helpers of the terminal application: colour parsing, ratio adjustment, circular selectors, focus navigation, gauge percentages and panel split.

Everything is stated as immutable datatypes and pure functions. Methods appear only where the source loops: the binary search and rolling window of the analysis store, and the listings of the stores.

The regular-expression engine is a parameter, `RegexEngine`, with three parts: `compiles(pattern)`, `isMatch(pattern, text)` and `captures(pattern, text)`, which yields the named groups. A compiled regex is represented by its pattern. Every property is therefore proved for every engine. Threads, channels, locks, files, sockets and rendering are not modelled.

Modules, one per file:

- `Wrappers`: Option and Result.
- `Maps`: the key listing of a map.
- `Decimal`: `usize`/`u8` to-string and parse.
- `Seqs`: sequence helpers.
- `Regex`: the engine parameter.
- `LogLines`, `Filters`, `Formats`, `StyledLines`: the models.
- `ApplyFormat`, `ApplyFilters`, `ApplySearch`: the domain functions.
- `LogStore`, `ProcessingStore`, `AnalysisStore`, `RegexCache`: the stores.
- `LogService`: the pipeline.
- `SourceTypes`: the source kinds.
- `StatefulTables`, `LazyTables`: the two tables.
- `App`, `LogAnalyzerUi`: the terminal interface.

Rust field and variant names that are Dafny keywords are renamed:

- the field `function` is `func`;
- `selected_module` is `focused`;
- `Module::None` is `NoModule`.

## Model

| member | source | states |
|---|---|---|
| Decimal.DigitChar | crates/log-analyzer/src/domain/apply_format.rs:8 | the character written for a digit is a decimal digit whose value is that digit |
| Decimal.NatToString | crates/log-analyzer/src/domain/apply_format.rs:8 | `usize::to_string` yields a non-empty run of digits with no leading zero (unless it is "0") |
| Decimal.ParseUnsigned | crates/log-analyzer/src/stores/analysis_store.rs:152-162 | `str::parse::<usize>` / `parse::<u8>`: a parsed value never exceeds the type's maximum |
| Decimal.NatToStringValue | crates/log-analyzer/src/domain/apply_format.rs:8 | the digits written for n denote n (proved by induction on n) |
| Decimal.ParseNatToString | crates/log-analyzer/src/stores/analysis_store.rs:155-157 | parsing a rendered index gives the index back, so the `unwrap` on `index.parse()` cannot fail for ingested lines |
| Regex.Compile | crates/log-analyzer/src/stores/regex_cache.rs:23 | `Regex::new` succeeds exactly when the engine accepts the pattern, and keeps the pattern |
| LogLines.Columns | crates/log-analyzer/src/models/log_line.rs:16-25 | there are six column keys |
| LogLines.Fields | crates/log-analyzer/src/models/log_line.rs:56-70 | the iterator yields one field per column |
| LogLines.Get | crates/log-analyzer/src/models/log_line.rs:27-37 | `get` answers exactly for the six column names, and returns one of the line's fields |
| LogLines.Values | crates/log-analyzer/src/models/filter.rs:66 | the (key, field) pairs a filter definition yields come in column order, one per column |
| LogLines.GetMatchesFields | crates/log-analyzer/src/models/log_line.rs:27-70 | `get` on the i-th column returns the i-th iterated field |
| LogLines.GetIgnoresColor | crates/log-analyzer/src/models/log_line.rs:27-37 | `get` never depends on the colour |
| Filters.ActionFromUsize | crates/log-analyzer/src/models/filter.rs:17-25 | 0 is INCLUDE, 1 is EXCLUDE, every other code is MARKER |
| Filters.ActionTabs | crates/log-analyzer/src/models/filter.rs:17-31 | the three popup tabs map to INCLUDE, EXCLUDE and MARKER, and the default action is MARKER |
| Filters.CompiledPairs | crates/log-analyzer/src/models/filter.rs:64-73 | keeps exactly the pairs whose pattern compiles; every kept pair comes from the input and every compiling input pair is kept |
| Filters.CompiledPairsAllCompile | crates/log-analyzer/src/models/filter.rs:64-73 | when every pattern compiles, all pairs are kept in order (induction) |
| Filters.GetFilters | crates/log-analyzer/src/models/filter.rs:64-73 | every returned key is a column and its pattern compiles; every column whose field compiles is present |
| Filters.FromFilter | crates/log-analyzer/src/models/filter.rs:44-48 | `LogFilter::from` keeps the action and colour, and takes `get_filters` as its pairs, so every key is one `get` accepts |
| Formats.NewFormat | crates/log-analyzer/src/models/format.rs:11-21 | succeeds iff alias and regex are non-empty and the regex compiles; the empty-field error and the invalid-regex error each happen exactly in their case |
| ApplyFormat.DefaultLogLine | crates/log-analyzer/src/domain/apply_format.rs:6-13 | the whole line goes to payload, the index is rendered, everything else is empty and uncoloured |
| ApplyFormat.GroupOrEmpty | crates/log-analyzer/src/domain/apply_format.rs:20-27 | a named group's text if it participated, otherwise the empty string |
| ApplyFormat.ApplyFormat | crates/log-analyzer/src/domain/apply_format.rs:16-44 | every formatted line carries its rendered index and no colour |
| ApplyFormat.NoFormatFallsBack | crates/log-analyzer/src/domain/apply_format.rs:52-56 | with no format the line is the default line, whose payload is the raw text |
| ApplyFormat.NoMatchFallsBack | crates/log-analyzer/src/domain/apply_format.rs:59-63 | a format that does not match gives the default line |
| ApplyFormat.MatchFillsFields | crates/log-analyzer/src/domain/apply_format.rs:66-76 | a matching format fills DATE, TIMESTAMP, APP, SEVERITY, FUNCTION and PAYLOAD from the named groups |
| ApplyFormat.IndexRoundTrip | crates/log-analyzer/src/domain/apply_format.rs:30 | the index stored on a formatted line parses back to the ingestion index |
| ApplySearch.AnyMatch | crates/log-analyzer/src/domain/apply_search.rs:7 | `any` is true iff some text matches |
| ApplySearch.ApplySearch | crates/log-analyzer/src/domain/apply_search.rs:6-8 | a line matches iff one of its six fields matches the query |
| ApplySearch.ReversalIrrelevant | crates/log-analyzer/src/domain/apply_search.rs:7 | scanning the fields in reverse gives the same answer as scanning them forward |
| ApplySearch.SearchIgnoresColorLogAndIndex | crates/log-analyzer/src/domain/apply_search.rs:6-8 | the search never looks at the colour, the raw log or the index |
| ApplyFilters.MatchLoop | crates/log-analyzer/src/domain/apply_filters.rs:10-19 | with at least one pair, the loop answers true iff every (key, regex) pair matches its field |
| ApplyFilters.FilterLine | crates/log-analyzer/src/domain/apply_filters.rs:8-22 | reports whether the filter matches; a match sets the filter's colour, otherwise the line is unchanged |
| ApplyFilters.MatchesIgnoresColor | crates/log-analyzer/src/domain/apply_filters.rs:8-22 | matching never depends on the line's colour |
| ApplyFilters.ApplyMarkers | crates/log-analyzer/src/domain/apply_filters.rs:46-48 | markers change only the colour, and the last matching marker's colour wins |
| ApplyFilters.TryIncludes | crates/log-analyzer/src/domain/apply_filters.rs:44-52 | keeps the line iff some INCLUDE filter matches, coloured by a matching include |
| ApplyFilters.AnyExclude | crates/log-analyzer/src/domain/apply_filters.rs:55-59 | true iff some EXCLUDE filter matches |
| ApplyFilters.IncludeCount | crates/log-analyzer/src/domain/apply_filters.rs:62-68 | zero iff there is no INCLUDE filter |
| ApplyFilters.ApplyFilters | crates/log-analyzer/src/domain/apply_filters.rs:32-72 | the line is kept iff (a matching include) or (no exclude matches and there are no includes); a kept line keeps its text |
| ApplyFilters.IncludeBeatsExclude | crates/log-analyzer/src/domain/apply_filters.rs:44-52 | a line matched by an include is kept even when an exclude also matches it |
| ApplyFilters.ExcludeDrops | crates/log-analyzer/src/domain/apply_filters.rs:55-59 | with no matching include, a matching exclude drops the line |
| ApplyFilters.UnmatchedIncludesDrop | crates/log-analyzer/src/domain/apply_filters.rs:62-71 | when includes exist and none matches, the line is dropped |
| ApplyFilters.ApplyFiltersColor | crates/log-analyzer/src/domain/apply_filters.rs:32-72 | a kept line's colour is that of a matching include, or else the marker colour |
| ApplyFilters.MarkerNeverDecides | crates/log-analyzer/src/domain/apply_filters.rs:32-72 | inserting a MARKER filter anywhere never changes whether a line is kept |
| ApplyFilters.KeptIgnoresMarker | crates/log-analyzer/src/domain/apply_filters.rs:32-72 | the keep decision is unchanged by an inserted marker (the lemma behind MarkerNeverDecides) |
| ApplyFilters.ExcludeOnlyShrinks | crates/log-analyzer/src/domain/apply_filters.rs:55-59 | adding an EXCLUDE filter never lets a previously dropped line through |
| ApplyFilters.KeptWithoutExclude | crates/log-analyzer/src/domain/apply_filters.rs:55-59 | the keep decision with an extra exclude implies the decision without it |
| StyledLines.StyledColumns | crates/log-analyzer/src/models/log_line_styled.rs:25-36 | the styled line has eight column keys |
| StyledLines.StyledFieldsByColumn | crates/log-analyzer/src/models/log_line_styled.rs:39-51 | one segment list per column |
| StyledLines.StyledGet | crates/log-analyzer/src/models/log_line_styled.rs:39-51 | `get` answers exactly for the eight column names, with the field of that column |
| StyledLines.StyledValues | crates/log-analyzer/src/models/log_line_styled.rs:54-64 | `values` lists seven (key, field) pairs, never Index, each agreeing with `get` |
| StyledLines.StyledFields | crates/log-analyzer/src/models/log_line_styled.rs:54-64 | the field parts of `values`, in order |
| StyledLines.Unformat | crates/log-analyzer/src/models/log_line_styled.rs:68-84 | the fold appends the concatenated segment texts to the accumulator |
| StyledLines.UnformatLine | crates/log-analyzer/src/models/log_line_styled.rs:68-84 | `unformat` gives a plain line whose every field is the concatenation of the styled segments, with the same colour |
| StyledLines.ConcatAppend | crates/log-analyzer/src/models/log_line_styled.rs:68-84 | concatenation distributes over appending segment lists |
| StyledLines.ConcatIgnoresHighlight | crates/log-analyzer/src/models/log_line_styled.rs:68-84 | changing a segment's highlight never changes the unformatted text |
| StyledLines.Cmp | crates/log-analyzer/src/models/log_line_styled.rs:172-181 | orders by parsed index; lines whose index does not parse compare Equal |
| StyledLines.PartialCmp | crates/log-analyzer/src/models/log_line_styled.rs:185-194 | undefined exactly when one index does not parse |
| StyledLines.Eq | crates/log-analyzer/src/models/log_line_styled.rs:198-207 | equality compares every field but the raw log |
| StyledLines.PartialCmpAgreesWithCmp | crates/log-analyzer/src/models/log_line_styled.rs:172-194 | `partial_cmp` is `Some(cmp)` when both indexes parse, else None (while `cmp` says Equal) |
| StyledLines.CmpAntisymmetric | crates/log-analyzer/src/models/log_line_styled.rs:172-181 | a < b iff b > a, and a == b iff b == a |
| StyledLines.EqIsEquivalence | crates/log-analyzer/src/models/log_line_styled.rs:198-207 | `eq` is reflexive, symmetric and transitive |
| LogStore.Empty | crates/log-analyzer/src/stores/log_store.rs:50-58 | a new store holds no logs |
| LogStore.AddLog | crates/log-analyzer/src/stores/log_store.rs:67-86 | records the source and enabled flag, sets the format only if one is given, leaves other logs and all raw lines alone |
| LogStore.GetLines | crates/log-analyzer/src/stores/log_store.rs:112-117 | a known log's stored lines, all of them; an unknown log has no lines |
| LogStore.AddLine | crates/log-analyzer/src/stores/log_store.rs:88-96 | appends one line to that log only, creating its entry if needed |
| LogStore.AddLines | crates/log-analyzer/src/stores/log_store.rs:98-110 | appends the lines to that log and returns the index range they occupy; other logs are unchanged |
| LogStore.AddLineIsAddLines | crates/log-analyzer/src/stores/log_store.rs:88-110 | adding one line is adding a one-line batch |
| LogStore.ExtractLines | crates/log-analyzer/src/stores/log_store.rs:119-124 | returns the log's lines and leaves it empty, everything else unchanged |
| LogStore.GetFormat | crates/log-analyzer/src/stores/log_store.rs:136-139 | the format is present iff recorded |
| LogStore.GetSource | crates/log-analyzer/src/stores/log_store.rs:148-159 | the source is present iff recorded |
| LogStore.ToggleLog | crates/log-analyzer/src/stores/log_store.rs:161-165 | flips the enabled flag of that log only |
| LogStore.ToggleTwiceRestores | crates/log-analyzer/src/stores/log_store.rs:161-165 | toggling twice restores the store |
| LogStore.GetLogs | crates/log-analyzer/src/stores/log_store.rs:126-134 | lists every log exactly once with its enabled flag and format |
| LogStore.SumOverRemove | crates/log-analyzer/src/stores/log_store.rs:141-146 | the sum of line counts splits off any one log |
| LogStore.SumOverAgree | crates/log-analyzer/src/stores/log_store.rs:141-146 | sums agree on maps whose logs have equal line counts |
| LogStore.GetTotalLines | crates/log-analyzer/src/stores/log_store.rs:141-146 | the loop's total is the sum of all logs' line counts |
| LogStore.AddLinesGrowsTotal | crates/log-analyzer/src/stores/log_store.rs:98-110 | adding lines raises the total by exactly their number |
| LogStore.ExtractLinesShrinksTotal | crates/log-analyzer/src/stores/log_store.rs:119-124 | extracting a log lowers the total by exactly its line count |
| Maps.Keys | crates/log-analyzer/src/stores/log_store.rs:126-134 | the key listing is duplicate-free and contains exactly the map's keys |
| ProcessingStore.AddFormat | crates/log-analyzer/src/stores/processing_store.rs:52-55 | sets that format only |
| ProcessingStore.Empty | crates/log-analyzer/src/stores/processing_store.rs:37-42 | a new store knows no format and no filter |
| ProcessingStore.GetFormat | crates/log-analyzer/src/stores/processing_store.rs:57-60 | present iff recorded, with the recorded regex |
| ProcessingStore.GetFormats | crates/log-analyzer/src/stores/processing_store.rs:62-71 | lists every format exactly once with its regex |
| ProcessingStore.AddFilter | crates/log-analyzer/src/stores/processing_store.rs:73-76 | records (action, filter, enabled) for that alias only |
| ProcessingStore.GetFilters | crates/log-analyzer/src/stores/processing_store.rs:78-96 | lists every filter exactly once, with its enabled flag, alias, action and definition |
| ProcessingStore.ToggleFilter | crates/log-analyzer/src/stores/processing_store.rs:98-103 | flips that filter's enabled flag only |
| ProcessingStore.ToggleFilterTwiceRestores | crates/log-analyzer/src/stores/processing_store.rs:98-103 | toggling twice restores the store |
| AnalysisStore.AddLines | crates/log-analyzer/src/stores/analysis_store.rs:72-77 | appends to the filtered log, leaving the search results and query alone |
| AnalysisStore.AddSearchLines | crates/log-analyzer/src/stores/analysis_store.rs:79-84 | appends to the search results, leaving the filtered log and query alone |
| AnalysisStore.AddSearchQuery | crates/log-analyzer/src/stores/analysis_store.rs:86-89 | the query is then the given one, and nothing else changes |
| AnalysisStore.GetLogLines | crates/log-analyzer/src/stores/analysis_store.rs:104-107 | the slice between the bounds, each clamped to the log's length |
| AnalysisStore.GetSearchLines | crates/log-analyzer/src/stores/analysis_store.rs:109-112 | the same for the search results |
| AnalysisStore.ResetLog | crates/log-analyzer/src/stores/analysis_store.rs:132-135 | empties the filtered log only |
| AnalysisStore.ResetSearch | crates/log-analyzer/src/stores/analysis_store.rs:137-140 | empties the search results only |
| AnalysisStore.TotalsTrackAppendsAndResets | crates/log-analyzer/src/stores/analysis_store.rs:142-148 | the totals grow by exactly the appended count and drop to zero on reset, each independently |
| AnalysisStore.WindowStableUnderAppend | crates/log-analyzer/src/stores/analysis_store.rs:104-107 | a window already inside the log is unchanged by later appends |
| AnalysisStore.Empty | crates/log-analyzer/src/stores/analysis_store.rs:56-62 | a new store has no filtered lines, no search results and no query |
| AnalysisStore.GetSearchQuery | crates/log-analyzer/src/stores/analysis_store.rs:91-94 | the stored query (see `AnalysisStore.SearchQueryKept`) |
| AnalysisStore.SearchQueryKept | crates/log-analyzer/src/stores/analysis_store.rs:86-94 | the query is the one last added; appending lines and resetting either log leave it unchanged |
| AnalysisStore.TotalFiltered | crates/log-analyzer/src/stores/analysis_store.rs:142-144 | the number of filtered lines (see `AnalysisStore.TotalsTrackAppendsAndResets`) |
| AnalysisStore.TotalSearched | crates/log-analyzer/src/stores/analysis_store.rs:146-148 | the number of search results (see `AnalysisStore.TotalsTrackAppendsAndResets`) |
| AnalysisStore.Key | crates/log-analyzer/src/stores/analysis_store.rs:153-157 | the index parsed as a `usize`, so at most `usize::MAX`; defined only where it parses, as the `unwrap` demands |
| AnalysisStore.KeyOfIngested | crates/log-analyzer/src/stores/analysis_store.rs:153-157 | a line stored with ingestion index n parses and has key n |
| AnalysisStore.BinarySearch | crates/log-analyzer/src/stores/analysis_store.rs:152-162 | `binary_search_by`: a found position holds the target key; on a sorted slice everything before the position is smaller (strictly when not found or strictly sorted) |
| AnalysisStore.FindSortedIndex | crates/log-analyzer/src/stores/analysis_store.rs:152-162 | Ok or Err position alike: on a strictly sorted log it is the first position whose key is not below the target's |
| AnalysisStore.FindRollingWindow | crates/log-analyzer/src/stores/analysis_store.rs:166-182 | returns a contiguous slice of at most `elements` lines and an index into it; on a strictly sorted log, the lines before the index are exactly those whose key is below the target's, and the window runs from `elements/2` lines before that split point (or the start) to `elements/2` lines after it (or the end) |
| AnalysisStore.GetLogLinesContaining | crates/log-analyzer/src/stores/analysis_store.rs:114-121 | the rolling window over the filtered log, with the same guarantees, including its extent around the split point |
| AnalysisStore.GetSearchLinesContaining | crates/log-analyzer/src/stores/analysis_store.rs:123-130 | the rolling window over the search results, with the same guarantees, including its extent around the split point |
| AnalysisStore.SortedSlice | crates/log-analyzer/src/stores/analysis_store.rs:166-182 | a slice of a strictly sorted log is strictly sorted |
| AnalysisStore.WindowPosition | crates/log-analyzer/src/stores/analysis_store.rs:166-182 | the position found inside the window, shifted by the window's start, is the position in the whole log |
| RegexCache.New | crates/log-analyzer/src/stores/regex_cache.rs:9-13 | a new cache knows no pattern |
| RegexCache.Get | crates/log-analyzer/src/stores/regex_cache.rs:15-20 | present iff cached, with the cached regex |
| RegexCache.Put | crates/log-analyzer/src/stores/regex_cache.rs:22-30 | returns the compiled regex or None; caches it only on success; other patterns unaffected; keeps the cache holding only compiling patterns |
| RegexCache.NewIsValid | crates/log-analyzer/src/stores/regex_cache.rs:40-44 | a new cache satisfies the invariant |
| RegexCache.PutThenGet | crates/log-analyzer/src/stores/regex_cache.rs:47-52 | after putting a valid pattern, `get` finds it |
| LogService.ProcessRawLines | crates/log-analyzer/src/services/log_service.rs:148-156 | stores the lines under their log, returns the log's format, the index range the lines occupy, and the lines |
| LogService.Indexed | crates/log-analyzer/src/services/log_service.rs:104-108 | pairs each line with its consecutive ingestion index |
| LogService.FormatRegex | crates/log-analyzer/src/services/log_service.rs:163-171 | a regex is used iff the log names a format the store knows; it is that format's regex |
| LogService.FormatLines | crates/log-analyzer/src/services/log_service.rs:173-178 | one formatted line per input, in order, each with its own index and no colour |
| LogService.ServiceApplyFormat | crates/log-analyzer/src/services/log_service.rs:158-179 | one line per input, each the domain `apply_format` of that line and index under the log's format regex; the line keeps its index and has no colour; with no known format, each is the default line |
| LogService.Convert | crates/log-analyzer/src/services/log_service.rs:187 | one `LogFilter` per listed filter, in order |
| LogService.EnabledFilters | crates/log-analyzer/src/services/log_service.rs:182-188 | the conversion of exactly the enabled filters, in listing order, all well keyed |
| LogService.ConvertCons | crates/log-analyzer/src/services/log_service.rs:187 | conversion distributes over a leading filter |
| LogService.FilterLines | crates/log-analyzer/src/services/log_service.rs:190-197 | never longer than the input; every output is the filtered form of some input line |
| LogService.Outcome | crates/log-analyzer/src/services/log_service.rs:193 | the per-line step is `apply_filters` with the enabled filters |
| LogService.ServiceApplyFilters | crates/log-analyzer/src/services/log_service.rs:181-198 | never longer than the input; every output has the text of some input line |
| LogService.FilterLinesAreKeptLines | crates/log-analyzer/src/services/log_service.rs:190-197 | the output is, position by position, the filtered form of exactly the kept input lines, in order |
| LogService.DisabledFilterIgnored | crates/log-analyzer/src/services/log_service.rs:186 | inserting a disabled filter anywhere in the listing changes nothing |
| LogService.EnabledFiltersSkipsDisabled | crates/log-analyzer/src/services/log_service.rs:186 | a disabled filter is not among the filters used (induction) |
| LogService.ServiceApplySearch | crates/log-analyzer/src/services/log_service.rs:200-213 | the lines pass through unchanged; the search results are the matching lines, or none when there is no query or it does not compile |
| LogService.Searcher | crates/log-analyzer/src/services/log_service.rs:205 | the per-line test is `apply_search` with the compiled query |
| LogService.SearchKeepsOrder | crates/log-analyzer/src/services/log_service.rs:204-208 | search results are a subsequence of the input, in input order |
| LogService.SearchCounts | crates/log-analyzer/src/services/log_service.rs:200-213 | a line the query matches appears in the search result exactly as often as in the input, and a non-matching line not at all |
| LogService.ProcessChunk | crates/log-analyzer/src/services/log_service.rs:119-124 | a chunk goes through `apply_format` with the log's format, then `apply_filters`, then `apply_search`: no more filtered lines than input lines, every filtered line carries the index of an input line, and every search hit is a filtered line |
| LogService.ProcessBatch | crates/log-analyzer/src/services/log_service.rs:99-124 | a batch of raw lines paired with consecutive indexes from the batch's first position: every stored line carries one of those indexes, and every search hit is a stored line |
| LogService.IndexedAppend | crates/log-analyzer/src/services/log_service.rs:104-108 | pairing a split batch pairs the second part with the indexes after the first part's |
| LogService.BatchInChunks | crates/log-analyzer/src/services/log_service.rs:104-130 | a batch processed in two consecutive parts stores the same filtered and search lines as the whole batch |
| LogService.ChunksMerge | crates/log-analyzer/src/services/log_service.rs:116-130 | processing two chunks and concatenating their results equals processing the whole, so the chunk split does not matter |
| LogService.FilterLinesAppend | crates/log-analyzer/src/services/log_service.rs:190-197 | filtering distributes over concatenation |
| LogService.ServiceFiltersAppend | crates/log-analyzer/src/services/log_service.rs:181-198 | the service's filter step distributes over concatenation |
| LogService.ServiceSearchAppend | crates/log-analyzer/src/services/log_service.rs:200-213 | the search results distribute over concatenation |
| LogService.FormatLinesAppend | crates/log-analyzer/src/services/log_service.rs:173-178 | formatting distributes over concatenation |
| LogService.AddFormat | crates/log-analyzer/src/services/log_service.rs:244-249 | stores the format iff `Format::new` accepts it, otherwise returns its error and leaves the store unchanged |
| LogService.AddFormatKeepsFormatsCompiling | crates/log-analyzer/src/services/log_service.rs:244-249 | every stored format keeps compiling, so the `unwrap` at log_service.rs line 168 cannot fail |
| SourceTypes.TryFromUsize | crates/log-source/src/source/log_source.rs:24-34 | 0 is FILE, 1 is WS, anything else is an error |
| SourceTypes.ToUsize | crates/log-source/src/source/log_source.rs:36-43 | FILE is 0 and WS is 1 |
| SourceTypes.RoundTrip | crates/log-analyzer/src/services/log_source.rs:28-47 | converting a kind to its code and back gives the kind |
| SourceTypes.CodesRoundTrip | crates/log-analyzer/src/services/log_source.rs:28-47 | every accepted code converts back to itself |
| StatefulTables.Next | crates/terminal-ui/src/data/stateful_table.rs:22-37 | on a non-empty table, selects the next row, wrapping from last to first, or row 0 when nothing was selected; an empty table is unchanged; reports the selection |
| StatefulTables.Reported | crates/terminal-ui/src/data/stateful_table.rs:36 | the selected row, or 0 when nothing is selected (`unwrap_or_default`) |
| StatefulTables.Previous | crates/terminal-ui/src/data/stateful_table.rs:39-54 | on a non-empty table, selects the previous row, wrapping from first to last, or row 0 when nothing was selected; an empty table is unchanged; reports the selection |
| StatefulTables.Unselect | crates/terminal-ui/src/data/stateful_table.rs:56-58 | clears the selection only |
| StatefulTables.MovesStayInRange | crates/terminal-ui/src/data/stateful_table.rs:22-54 | moves keep an in-range selection in range |
| StatefulTables.PreviousKeepsStaleSelection | crates/terminal-ui/src/data/stateful_table.rs:39-54 | a selection beyond a shrunken table stays out of range after `previous` |
| StatefulTables.NextPreviousInverse | crates/terminal-ui/src/data/stateful_table.rs:22-54 | `next` and `previous` undo each other |
| LazyTables.CurrentArea | crates/terminal-ui/src/data/lazy_stateful_table.rs:21-28 | rows below 400 are Below, 400 to 600 Inside, above 600 Above |
| LazyTables.Source | crates/terminal-ui/src/data/lazy_stateful_table.rs:156-160 | the source returns the clamped slice `[from, to)` of the backing log |
| LazyTables.New | crates/terminal-ui/src/data/lazy_stateful_table.rs:44-52 | starts at offset 0 with the first 1000 rows, nothing selected, in a valid state |
| LazyTables.Reload | crates/terminal-ui/src/data/lazy_stateful_table.rs:56-59 | an empty table fetches its first window; a non-empty one is untouched |
| LazyTables.NextAsWritten | crates/terminal-ui/src/data/lazy_stateful_table.rs:56-93 | `next` as written, which panics (None) only when the window is shorter than 1000 |
| LazyTables.AsWrittenAgreesAwayFromBottom | crates/terminal-ui/src/data/lazy_stateful_table.rs:56-93 | outside the Above area, or with nothing selected, `next` as written takes the same step as the corrected `next` |
| LazyTables.Next | crates/terminal-ui/src/data/lazy_stateful_table.rs:56-93 | selects something once rows exist, row 0 when nothing was selected; keeps the window length; outside the Above area keeps the window |
| LazyTables.SlideDown | crates/terminal-ui/src/data/lazy_stateful_table.rs:70-86 | on a window that is a slice of the log, slides it forward by exactly the rows that follow it, up to 100 (`Min(100, len - (offset + items))`); keeps its length, keeps the selected row under the cursor, and keeps the window a slice of the log |
| LazyTables.Previous | crates/terminal-ui/src/data/lazy_stateful_table.rs:95-141 | selects something once rows exist, row 0 when nothing was selected; keeps the window length; outside the Below area keeps the window |
| LazyTables.SlideUp | crates/terminal-ui/src/data/lazy_stateful_table.rs:109-134 | slides the window back by at most 100 rows to `offset - 100` (or 0), keeping its length and the selected row |
| LazyTables.SlideDownKeepsWindow | crates/terminal-ui/src/data/lazy_stateful_table.rs:70-86 | the dropped prefix plus the fetched rows form the next slice of the log |
| LazyTables.SlideUpKeepsWindow | crates/terminal-ui/src/data/lazy_stateful_table.rs:109-134 | the fetched rows plus the kept prefix form the previous slice of the log |
| LazyTables.NextPreservesValid | crates/terminal-ui/src/data/lazy_stateful_table.rs:56-93 | `next` keeps the window a slice of the log holding the selection |
| LazyTables.PreviousPreservesValid | crates/terminal-ui/src/data/lazy_stateful_table.rs:95-141 | `previous` keeps the window a slice of the log holding the selection |
| LazyTables.ValidPreviousFits | crates/terminal-ui/src/data/lazy_stateful_table.rs:116-124 | on a valid table the rows fetched going up never outnumber the window |
| LazyTables.Unselect | crates/terminal-ui/src/data/lazy_stateful_table.rs:143-145 | clears the selection only |
| LazyTables.ValidUnderGrowth | crates/terminal-ui/src/data/lazy_stateful_table.rs:56-141 | a valid table stays valid while the log grows |
| LazyTables.NextAgreesOnFullWindow | crates/terminal-ui/src/data/lazy_stateful_table.rs:70-86 | on a full 1000-row window the corrected `next` is the code as written |
| LazyTables.Count | crates/terminal-ui/src/data/lazy_stateful_table.rs:156-160 | the test source: row i is i |
| LazyTables.SlidingScenario | crates/terminal-ui/src/data/lazy_stateful_table.rs:206-227 | over 2000 rows, moving past row 600 slides the window by 100 and moving back up returns it |
| LazyTables.ScrollsTo601 | crates/terminal-ui/src/data/lazy_stateful_table.rs:194-204 | over 700 rows, k+1 presses select row k without sliding, for every k up to 601 |
| LazyTables.MovesDownInside | crates/terminal-ui/src/data/lazy_stateful_table.rs:61-69 | outside the Above area `next` only moves the selection down by one, stopping at the last row |
| LazyTables.MovesUpInside | crates/terminal-ui/src/data/lazy_stateful_table.rs:102-108 | outside the Below area `previous` only moves the selection up by one, stopping at row 0 |
| LazyTables.SlidesAtBottom | crates/terminal-ui/src/data/lazy_stateful_table.rs:61-86 | in the Above area `next` slides the reloaded window down (`SlideDown`) |
| LazyTables.SlidesAtTop | crates/terminal-ui/src/data/lazy_stateful_table.rs:102-131 | in the Below area `previous` slides the reloaded window up (`SlideUp`) |
| LazyTables.NextPanicsOnShortWindow | crates/terminal-ui/src/data/lazy_stateful_table.rs:70-86 | over 700 rows, the 603rd press panics in the code as written |
| LazyTables.ShortWindowPanics | crates/terminal-ui/src/data/lazy_stateful_table.rs:70-86 | a valid table on row 601 of 700 panics as written, and the corrected `next` selects row 602 |
| App.IndexLayout | crates/terminal-ui/src/app.rs:20-45 | the input-field indexes: source fields 0-5, filter fields 6-18, search 19, navigation 20, 21 in all |
| App.SetFocus | crates/terminal-ui/src/app.rs:60-66 | a given focus is kept and no focus means 0 |
| App.ParseColor | crates/terminal-ui/src/app.rs:1159-1174 | a colour iff at least one of the three texts parses as a u8; each component is its parsed value, or 0 when its text does not parse |
| App.ParseColorRoundTrip | crates/terminal-ui/src/app.rs:1159-1174 | the three rendered components of a colour parse back to it |
| App.IncreaseRatio | crates/terminal-ui/src/app.rs:920-922 | adds the step and caps at the maximum |
| App.DecreaseRatio | crates/terminal-ui/src/app.rs:924-926 | subtracts the step only above the minimum |
| App.RatioStaysInBounds | crates/terminal-ui/src/app.rs:444-453 | with step 5 and bounds that are multiples of 5, the ratios never leave their bounds and never underflow |
| App.MultiplesApart | crates/terminal-ui/src/app.rs:444-453 | two different multiples of the step are at least a step apart |
| App.AsI32 | crates/terminal-ui/src/app.rs:723 | `as i32` wraps into the 32-bit signed range and is the identity below 2^31 |
| App.CircularChoice | crates/terminal-ui/src/app.rs:721-727 | the choice stays within 0..max and is i + add when that is in range |
| App.CircularChoiceWraps | crates/terminal-ui/src/app.rs:721-727 | right from the last tab goes to the first, left from the first goes to the last |
| App.CircularChoiceInverse | crates/terminal-ui/src/app.rs:721-731 | right then left, or left then right, returns to the same tab |
| App.FlipSourceType | crates/terminal-ui/src/app.rs:640 | the switch always yields 0 or 1 |
| App.FlipSourceTypeSwaps | crates/terminal-ui/src/app.rs:640 | the switch exchanges file (0) and web socket (1) |
| App.FlipSourceTypeParity | crates/terminal-ui/src/app.rs:640 | from any code the switch yields 1 for even codes and 0 for odd ones |
| App.Navigate | crates/terminal-ui/src/app.rs:832-918 | only the open popup's field index can change, panels change only from panel focus, and leaving sources or filters clears their selection |
| App.PopupsKeepFieldRange | crates/terminal-ui/src/app.rs:880-913 | moving between popup fields stays within that popup's own fields |
| App.SidePanelReachable | crates/terminal-ui/src/app.rs:832-918 | left/right from the main panels reaches the side panel iff it is visible; when hidden, nothing changes |
| App.NoFocusGoesToLogs | crates/terminal-ui/src/app.rs:916 | with nothing focused, any key focuses the log panel |
| App.UpDownInverse | crates/terminal-ui/src/app.rs:832-918 | up and down undo each other among log, search and results, and three ups cycle back |
| LogAnalyzerUi.Spellings | crates/terminal-ui/src/ui/ui_log_analyzer.rs:24-40 | each colour has exactly three accepted spellings |
| LogAnalyzerUi.ColorFromStr | crates/terminal-ui/src/ui/ui_log_analyzer.rs:22-43 | a recognised name is one of that colour's spellings |
| LogAnalyzerUi.SpellingsName | crates/terminal-ui/src/ui/ui_log_analyzer.rs:24-40 | every accepted spelling is recognised as its colour |
| LogAnalyzerUi.ColorFromStrExact | crates/terminal-ui/src/ui/ui_log_analyzer.rs:22-43 | a string names colour c iff it is one of c's spellings |
| LogAnalyzerUi.ColorFromStrRejects | crates/terminal-ui/src/ui/ui_log_analyzer.rs:41 | None iff the string is no colour's spelling |
| LogAnalyzerUi.MixedCaseIsNoColor | crates/terminal-ui/src/ui/ui_log_analyzer.rs:24-41 | matching is exact: "rEd", "Darkgray" and "" name no colour |
| LogAnalyzerUi.SegmentStyleAsWritten | crates/terminal-ui/src/ui/ui_log_analyzer.rs:177-191 | a highlight naming a colour is drawn in that colour and bold; any other segment takes the line's colour, if any, and is not bold |
| LogAnalyzerUi.UnnamedHighlightNotBold | crates/terminal-ui/src/ui/ui_log_analyzer.rs:189-191 | as written, a highlight that names no colour is not bold |
| LogAnalyzerUi.SegmentStyle | crates/terminal-ui/src/ui/ui_log_analyzer.rs:177-191 | corrected: bold iff highlighted, with the same colour as written |
| LogAnalyzerUi.ConsumeOffset | crates/terminal-ui/src/ui/ui_log_analyzer.rs:192-195 | never yields more segments than given |
| LogAnalyzerUi.ConsumeOffsetDropsPrefix | crates/terminal-ui/src/ui/ui_log_analyzer.rs:192-195 | the shown text is the cell text with its first `offset` characters removed (all of it if shorter) |
| LogAnalyzerUi.GaugePercent | crates/terminal-ui/src/ui/ui_log_analyzer.rs:314 | 0 for an empty log; otherwise the floor of the percentage, at most 100 |
| LogAnalyzerUi.PercentBounds | crates/terminal-ui/src/ui/ui_log_analyzer.rs:323 | the integer percentage brackets the exact ratio and fits a u16 |
| LogAnalyzerUi.DivisionBounds | crates/terminal-ui/src/ui/ui_log_analyzer.rs:314 | integer division brackets its quotient |
| LogAnalyzerUi.PanelSplit | crates/terminal-ui/src/ui/ui_log_analyzer.rs:333-335 | the log and search panels share the free height, losing at most one row to rounding |
| LogAnalyzerUi.SplitDivision | crates/terminal-ui/src/ui/ui_log_analyzer.rs:333-335 | two floors of parts summing to e*100 add up to e or e-1 |

## Left out

- Threads, channels and the parallel map are not modelled: the service's worker loop, the chunk scheduling across CPUs, `add_log`'s spawned source task, `add_search` re-running the search and `toggle_filter` re-running the filters (log_service.rs lines 76-146, 218-242, 251-303 and 347-390). What they do per batch is modelled by `LogService.ProcessBatch` over `LogService.ProcessChunk`, and `LogService.ChunksMerge` and `LogService.BatchInChunks` show the result does not depend on the chunk split.
- Reading files and web sockets (`log_source.rs` `run`, `create_source`) is I/O. The model only covers the source kinds.
- JSON (serde) is not modelled: settings, filter persistence, and the decoding of highlight groups in the search cell. A non-JSON cell is modelled as one unhighlighted segment.
- Drawing with the terminal UI library is not modelled: layouts, widgets, colours on screen, the table widget's scroll offset and the `TableState` transmute in `lazy_stateful_table.rs`. Only the pure computations the drawing code makes are kept.
- `models/log.rs`, the legacy top-level `src/` and `rust/` trees, and the popups are not part of this model.
- `RwLock`/`Mutex` locking is not modelled; each store operation is atomic.
- Strings are sequences of characters, so UTF-8 byte offsets and char-boundary panics in `content.get(offset..)` are not modelled; `LogAnalyzerUi.ConsumeOffset` counts characters.
- `LogStore.GetTotalLines` and the analysis-store totals use unbounded integers: `usize` overflow of line counts is not modelled.
- `LogAnalyzerUi.GaugePercent`: the product `filtered * 100` is unbounded here, where the source would overflow `usize`. The `as u16` cast is proved lossless for percentages of at most 100.
- The regular-expression engine is a parameter (`Regex.RegexEngine`), so all properties hold for every engine; its matching semantics are not modelled.
- Filter precedence follows the code and its doc comment (apply_filters.rs lines 24-31): a matching INCLUDE filter keeps a line even when an EXCLUDE filter also matches it (`ApplyFilters.IncludeBeatsExclude`).
- `LogLines.Values`: `log_line.rs` defines no `values()`, though `filter.rs` line 66 calls it. It also omits the `index` field that `apply_format.rs` sets and the `log` field that `LogLineStyled::unformat` sets (log_line_styled.rs line 74). The model gives `LogLine` all eight fields and takes `values()` as the six (column, field) pairs in column order.
- `ApplyFormat.ApplyFormat`: the match branch (apply_format.rs lines 29-38) names no `log` field; the model sets it to the empty string, as `default_log_line` does through `Default`.
- Colours: `log_line.rs` line 12 declares the colour as `Option<u32>`, but every place that sets or reads it uses an RGB triple (`Option<(u8, u8, u8)>` in filter.rs line 41 and log_line_styled.rs line 20, and the apply_filters tests). The model uses the triple (`LogLines.Rgb`).
- `LogService.Outcome`: `apply_filters` at log_service.rs line 193 receives `Filter` values, while the domain function takes `LogFilter`. The model inserts the `LogFilter::from` conversion (`Filters.FromFilter`).
- `StatefulTables.Next`: for a stale selection beyond a shrunken table, the contract states only that some in-range row is selected, rather than the exact row.
- `StatefulTables.Previous`: for a stale selection beyond a shrunken table, the contract states only that a row is selected (`StatefulTables.PreviousKeepsStaleSelection` shows it can stay out of range).
- `App.IncreaseRatio`: requires `ratio + step` to fit a `u16`; the source would panic on overflow in debug builds, and its callers' bounds (at most 80 + 5) never reach it.
- `App.DecreaseRatio`: requires `ratio >= step` above the minimum; the source would underflow otherwise, and `App.RatioStaysInBounds` shows its callers never do.
- `LogAnalyzerUi.PanelSplit`: requires a height of at least 3 and both products `(height - 3) * percentage` and `(height - 3) * (100 - percentage)` to fit a `u16`; otherwise the source's `u16` subtraction or multiplication panics (ui_log_analyzer.rs lines 333-335).
- `LazyTables.Previous`: does not model the panic when more rows are fetched than the window holds; `LazyTables.ValidPreviousFits` shows this cannot happen on a valid table.
- `AnalysisStore.BinarySearch`, `AnalysisStore.FindSortedIndex` and `AnalysisStore.FindRollingWindow` are generic over the key function. The stores instantiate them with the parsed index (`AnalysisStore.Key`). Where the source would panic on an unparsable index, the model requires every index to parse.
- `Seqs.Window`, `AnalysisStore.GetLogLines` and `AnalysisStore.GetSearchLines`: require the clamped start not to exceed the clamped end, `Min(from, len) <= Min(to, len)`; otherwise the slice at analysis_store.rs lines 106 and 111 panics.
- `LogStore.ExtractLines`: requires the log to be known (`id in s.rawLines`); otherwise the `unwrap` at log_store.rs line 121 panics.
- `LogService.FormatRegex`, `LogService.ServiceApplyFormat`, `LogService.ProcessChunk`, `LogService.ProcessBatch`: require the log's stored format to compile; otherwise `Regex::new(&format).unwrap()` at log_service.rs line 168 panics.
- `AnalysisStore.BinarySearch`: Rust leaves unspecified which equal element `binary_search_by` finds. The contract states only that the found element has the target's key.

## Findings

| source | as written | input that shows it | evidently intended | confidence | as-written member | corrected member |
|---|---|---|---|---|---|---|
| crates/terminal-ui/src/data/lazy_stateful_table.rs:70-86 | moving down past row 600 drops rows `items[CAPACITY - k..CAPACITY]` and fetches from `offset + CAPACITY`, assuming a full 1000-row window | a 700-row log: 602 presses select row 601, and the 603rd press slices past the end of the 700-row window and panics | slide relative to the actual window length, `offset + items.len()` | not executed | LazyTables.NextAsWritten, LazyTables.NextPanicsOnShortWindow | LazyTables.Next |
| crates/terminal-ui/src/ui/ui_log_analyzer.rs:189-191 | `style.add_modifier(Modifier::BOLD)` returns a new style that is discarded, so it has no effect | a search hit whose highlight is not a colour name, e.g. `(Some("match"), "x")` | every highlighted segment is drawn bold | not executed | LogAnalyzerUi.SegmentStyleAsWritten, LogAnalyzerUi.UnnamedHighlightNotBold | LogAnalyzerUi.SegmentStyle |
