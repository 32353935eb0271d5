/**
 * The analysis store (`stores/analysis_store.rs`): the filtered log, the
 * search result log and the current search query. Locks are left out; each
 * operation is a pure function from the old store to the new one.
 */
module AnalysisStore {
  import opened Wrappers
  import opened LogLines
  import opened Seqs
  import Decimal

  datatype AnalysisStore = AnalysisStore(log: seq<LogLine>, searchQuery: Option<string>, searchLog: seq<LogLine>)

  /** `InMemmoryAnalysisStore::new()`: no lines, no search results, no query. */
  function Empty(): (s: AnalysisStore)
    ensures TotalFiltered(s) == 0 && TotalSearched(s) == 0 && GetSearchQuery(s).None?
  {
    AnalysisStore([], None, [])
  }

  /** `add_lines`: append to the filtered log, in order. */
  function AddLines(s: AnalysisStore, lines: seq<LogLine>): (r: AnalysisStore)
    ensures |r.log| == |s.log| + |lines|
    ensures r.log[..|s.log|] == s.log && r.log[|s.log|..] == lines
    ensures r.searchLog == s.searchLog && r.searchQuery == s.searchQuery
  {
    s.(log := s.log + lines)
  }

  /** `add_search_lines`: append to the search log, in order. */
  function AddSearchLines(s: AnalysisStore, lines: seq<LogLine>): (r: AnalysisStore)
    ensures |r.searchLog| == |s.searchLog| + |lines|
    ensures r.searchLog[..|s.searchLog|] == s.searchLog && r.searchLog[|s.searchLog|..] == lines
    ensures r.log == s.log && r.searchQuery == s.searchQuery
  {
    s.(searchLog := s.searchLog + lines)
  }

  /** `add_search_query` */
  function AddSearchQuery(s: AnalysisStore, query: string): (r: AnalysisStore)
    ensures GetSearchQuery(r) == Some(query)
    ensures r.log == s.log && r.searchLog == s.searchLog
  {
    s.(searchQuery := Some(query))
  }

  /** `get_search_query` */
  function GetSearchQuery(s: AnalysisStore): Option<string> {
    s.searchQuery
  }

  /** `get_log_lines(from, to)`: out-of-bounds-safe copy of a window of the filtered log. */
  function GetLogLines(s: AnalysisStore, from: nat, to: nat): (r: seq<LogLine>)
    requires Min(from, |s.log|) <= Min(to, |s.log|)
    ensures r == s.log[Min(from, |s.log|)..Min(to, |s.log|)]
  {
    Window(s.log, from, to)
  }

  /** `get_search_lines(from, to)` */
  function GetSearchLines(s: AnalysisStore, from: nat, to: nat): (r: seq<LogLine>)
    requires Min(from, |s.searchLog|) <= Min(to, |s.searchLog|)
    ensures r == s.searchLog[Min(from, |s.searchLog|)..Min(to, |s.searchLog|)]
  {
    Window(s.searchLog, from, to)
  }

  /** `reset_log`: empties the filtered log only. */
  function ResetLog(s: AnalysisStore): (r: AnalysisStore)
    ensures r.log == [] && r.searchLog == s.searchLog && r.searchQuery == s.searchQuery
  {
    s.(log := [])
  }

  /** `reset_search`: empties the search log only (the query is kept). */
  function ResetSearch(s: AnalysisStore): (r: AnalysisStore)
    ensures r.searchLog == [] && r.log == s.log && r.searchQuery == s.searchQuery
  {
    s.(searchLog := [])
  }

  /** `get_total_filtered_lines` */
  function TotalFiltered(s: AnalysisStore): nat { |s.log| }

  /** `get_total_searched_lines` */
  function TotalSearched(s: AnalysisStore): nat { |s.searchLog| }

  /** Appending n lines grows the counts by n; resetting zeroes exactly one of them. */
  lemma TotalsTrackAppendsAndResets(s: AnalysisStore, lines: seq<LogLine>)
    ensures TotalFiltered(AddLines(s, lines)) == TotalFiltered(s) + |lines|
    ensures TotalSearched(AddSearchLines(s, lines)) == TotalSearched(s) + |lines|
    ensures TotalFiltered(ResetLog(s)) == 0 && TotalSearched(ResetLog(s)) == TotalSearched(s)
    ensures TotalSearched(ResetSearch(s)) == 0 && TotalFiltered(ResetSearch(s)) == TotalFiltered(s)
  {
  }

  /** The query is what `add_search_query` last set; appending lines and resetting leave it alone. */
  lemma SearchQueryKept(s: AnalysisStore, lines: seq<LogLine>, query: string)
    ensures GetSearchQuery(AddSearchQuery(s, query)) == Some(query)
    ensures GetSearchQuery(AddLines(s, lines)) == GetSearchQuery(s)
    ensures GetSearchQuery(AddSearchLines(s, lines)) == GetSearchQuery(s)
    ensures GetSearchQuery(ResetLog(s)) == GetSearchQuery(s) && GetSearchQuery(ResetSearch(s)) == GetSearchQuery(s)
  {
  }

  /** A window read after an append sees the old lines where it lies inside the old log. */
  lemma WindowStableUnderAppend(s: AnalysisStore, lines: seq<LogLine>, from: nat, to: nat)
    requires from <= to <= |s.log|
    ensures GetLogLines(AddLines(s, lines), from, to) == GetLogLines(s, from, to)
  {
  }

  // ---- ordering by numeric index ----

  predicate Parses(l: LogLine) {
    Decimal.ParseUnsigned(l.index, Decimal.USIZE_MAX).Some?
  }

  /** `index.parse::<usize>().unwrap()`: the key the log is ordered by. */
  function Key(l: LogLine): (k: nat)
    requires Parses(l)
    ensures k <= Decimal.USIZE_MAX
  {
    Decimal.ParseUnsigned(l.index, Decimal.USIZE_MAX).value
  }

  /** A line stored with ingestion index n has key n. */
  lemma KeyOfIngested(l: LogLine, n: nat)
    requires n <= Decimal.USIZE_MAX && l.index == Decimal.NatToString(n)
    ensures Parses(l) && Key(l) == n
  {
    Decimal.ParseNatToString(n, Decimal.USIZE_MAX);
  }

  /**
   * The searches below take the key as a partial function: its precondition
   * is the `unwrap` that panics, so every element must have a key.
   */
  ghost predicate AllKeyed<T>(s: seq<T>, key: T --> nat) {
    forall i :: 0 <= i < |s| ==> key.requires(s[i])
  }

  ghost predicate Sorted<T>(s: seq<T>, key: T --> nat)
    requires AllKeyed(s, key)
  {
    forall i, j :: 0 <= i < j < |s| ==> key(s[i]) <= key(s[j])
  }

  ghost predicate StrictlySorted<T>(s: seq<T>, key: T --> nat)
    requires AllKeyed(s, key)
  {
    forall i, j :: 0 <= i < j < |s| ==> key(s[i]) < key(s[j])
  }

  /**
   * `slice::binary_search_by` comparing keys: `found` is `Ok`, otherwise `i`
   * is the insertion point of `Err`.
   */
  method BinarySearch<T>(s: seq<T>, key: T --> nat, target: T) returns (found: bool, i: nat)
    requires AllKeyed(s, key) && key.requires(target)
    ensures i <= |s|
    ensures found ==> i < |s| && key(s[i]) == key(target)
    ensures Sorted(s, key) ==> (forall j :: 0 <= j < i ==> key(s[j]) <= key(target))
                               && (forall j :: i <= j < |s| ==> key(s[j]) >= key(target))
    ensures Sorted(s, key) && !found ==> (forall j :: 0 <= j < i ==> key(s[j]) < key(target))
                                         && (forall j :: i <= j < |s| ==> key(s[j]) > key(target))
    ensures StrictlySorted(s, key) ==> forall j :: 0 <= j < i ==> key(s[j]) < key(target)
  {
    var t := key(target);
    var size := |s|;
    var left := 0;
    var right := |s|;
    while left < right
      invariant 0 <= left <= right <= |s|
      invariant size == right - left
      invariant Sorted(s, key) ==> forall j :: 0 <= j < left ==> key(s[j]) < t
      invariant Sorted(s, key) ==> forall j :: right <= j < |s| ==> key(s[j]) > t
      decreases size
    {
      var mid := left + size / 2;
      var k := key(s[mid]);
      if k == t {
        found, i := true, mid;
        return;
      }
      if k < t {
        left := mid + 1;
      } else {
        right := mid;
      }
      size := right - left;
    }
    found, i := false, left;
  }

  /** `find_sorted_index`: the position of the line's key, found or to be inserted. */
  method FindSortedIndex<T>(s: seq<T>, key: T --> nat, target: T) returns (i: nat)
    requires AllKeyed(s, key) && key.requires(target)
    ensures i <= |s|
    ensures Sorted(s, key) ==> (forall j :: 0 <= j < i ==> key(s[j]) <= key(target))
                               && (forall j :: i <= j < |s| ==> key(s[j]) >= key(target))
    ensures StrictlySorted(s, key) ==> forall j :: 0 <= j < i ==> key(s[j]) < key(target)
  {
    var _, k := BinarySearch(s, key, target);
    i := k;
  }

  /**
   * `find_rolling_window`: at most `elements` lines around the target's
   * position, the window's offset in the source, and the target's position
   * inside the window.
   */
  method FindRollingWindow<T>(source: seq<T>, key: T --> nat, line: T, elements: nat)
    returns (lines: seq<T>, from: nat, index: nat)
    requires AllKeyed(source, key) && key.requires(line)
    ensures from + |lines| <= |source| && lines == source[from..from + |lines|]
    ensures |lines| <= elements
    ensures index <= |lines|
    ensures StrictlySorted(source, key) ==>
              && (forall j :: 0 <= j < from + index ==> key(source[j]) < key(line))
              && (forall j :: from + index <= j < |source| ==> key(source[j]) >= key(line))
    ensures StrictlySorted(source, key) ==>
              && from == (if elements / 2 < from + index then from + index - elements / 2 else 0)
              && from + |lines| == Min(from + index + elements / 2, |source|)
  {
    var closest := FindSortedIndex(source, key, line);
    from := if elements / 2 < closest then closest - elements / 2 else 0;
    var to := Min(closest + elements / 2, |source|);
    lines := source[from..to];
    assert forall j :: 0 <= j < |lines| ==> lines[j] == source[from + j];
    if StrictlySorted(source, key) {
      SortedSlice(source, key, from, to);
    }
    index := FindSortedIndex(lines, key, line);
    if StrictlySorted(source, key) {
      WindowPosition(source, key, line, closest, from, to, index);
      SplitUnique(source, key, line, closest, from + index);
    }
  }

  /** `get_log_lines_containing`: the rolling window over the filtered log, ordered by line index. */
  method GetLogLinesContaining(s: AnalysisStore, line: LogLine, elements: nat)
    returns (lines: seq<LogLine>, from: nat, index: nat)
    requires AllKeyed(s.log, Key) && Parses(line)
    ensures from + |lines| <= |s.log| && lines == s.log[from..from + |lines|]
    ensures |lines| <= elements && index <= |lines|
    ensures StrictlySorted(s.log, Key) ==>
              && (forall j :: 0 <= j < from + index ==> Key(s.log[j]) < Key(line))
              && (forall j :: from + index <= j < |s.log| ==> Key(s.log[j]) >= Key(line))
    ensures StrictlySorted(s.log, Key) ==>
              && from == (if elements / 2 < from + index then from + index - elements / 2 else 0)
              && from + |lines| == Min(from + index + elements / 2, |s.log|)
  {
    lines, from, index := FindRollingWindow(s.log, Key, line, elements);
  }

  /** `get_search_lines_containing`: the same over the search log. */
  method GetSearchLinesContaining(s: AnalysisStore, line: LogLine, elements: nat)
    returns (lines: seq<LogLine>, from: nat, index: nat)
    requires AllKeyed(s.searchLog, Key) && Parses(line)
    ensures from + |lines| <= |s.searchLog| && lines == s.searchLog[from..from + |lines|]
    ensures |lines| <= elements && index <= |lines|
    ensures StrictlySorted(s.searchLog, Key) ==>
              && (forall j :: 0 <= j < from + index ==> Key(s.searchLog[j]) < Key(line))
              && (forall j :: from + index <= j < |s.searchLog| ==> Key(s.searchLog[j]) >= Key(line))
    ensures StrictlySorted(s.searchLog, Key) ==>
              && from == (if elements / 2 < from + index then from + index - elements / 2 else 0)
              && from + |lines| == Min(from + index + elements / 2, |s.searchLog|)
  {
    lines, from, index := FindRollingWindow(s.searchLog, Key, line, elements);
  }

  /** A slice of a strictly sorted sequence is strictly sorted. */
  lemma SortedSlice<T>(source: seq<T>, key: T --> nat, from: nat, to: nat)
    requires from <= to <= |source| && AllKeyed(source, key) && StrictlySorted(source, key)
    ensures AllKeyed(source[from..to], key)
    ensures StrictlySorted(source[from..to], key) && Sorted(source[from..to], key) && Sorted(source, key)
  {
    var w := source[from..to];
    assert forall j :: 0 <= j < |w| ==> w[j] == source[from + j];
  }

  /** A sorted sequence splits around a key at one position only. */
  lemma SplitUnique<T>(source: seq<T>, key: T --> nat, line: T, p: nat, q: nat)
    requires AllKeyed(source, key) && key.requires(line)
    requires p <= |source| && q <= |source|
    requires forall j :: 0 <= j < p ==> key(source[j]) < key(line)
    requires forall j :: p <= j < |source| ==> key(source[j]) >= key(line)
    requires forall j :: 0 <= j < q ==> key(source[j]) < key(line)
    requires forall j :: q <= j < |source| ==> key(source[j]) >= key(line)
    ensures p == q
  {
    if p < |source| {
      assert key(source[p]) >= key(line);
    }
    if q < |source| {
      assert key(source[q]) >= key(line);
    }
  }

  /** The target's position in the window, shifted by the window's offset, is its position in the source. */
  lemma WindowPosition<T>(source: seq<T>, key: T --> nat, line: T, closest: nat, from: nat, to: nat, index: nat)
    requires AllKeyed(source, key) && key.requires(line) && StrictlySorted(source, key)
    requires from <= closest <= |source| && from <= to <= |source| && index <= to - from
    requires to == |source| || closest <= to
    requires forall j :: 0 <= j < closest ==> key(source[j]) < key(line)
    requires forall j :: closest <= j < |source| ==> key(source[j]) >= key(line)
    requires forall j :: 0 <= j < index ==> key(source[from..to][j]) < key(line)
    requires forall j :: index <= j < to - from ==> key(source[from..to][j]) >= key(line)
    ensures forall j :: 0 <= j < from + index ==> key(source[j]) < key(line)
    ensures forall j :: from + index <= j < |source| ==> key(source[j]) >= key(line)
  {
    var w := source[from..to];
    forall j | 0 <= j < from + index ensures key(source[j]) < key(line) {
      if j >= from {
        assert source[j] == w[j - from];
      }
    }
    forall j | from + index <= j < |source| ensures key(source[j]) >= key(line) {
      if j < to {
        assert source[j] == w[j - from];
      }
    }
  }
}
