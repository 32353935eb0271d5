/**
 * The store of processing definitions: formats by alias and filters by
 * alias, each filter with its action, its per-column patterns and whether
 * it is enabled.
 */
module ProcessingStore {
  import opened Wrappers
  import opened LogLines
  import opened Filters
  import opened Formats
  import Maps

  datatype ProcessingStore = ProcessingStore(
    formats: map<string, string>,
    filters: map<string, (FilterAction, LogLine, bool)>)

  /** `InMemmoryProcessingStore::new()`: no formats and no filters. */
  function Empty(): (s: ProcessingStore)
    ensures forall id :: GetFormat(s, id).None?
    ensures forall alias :: alias !in s.filters
  {
    ProcessingStore(map[], map[])
  }

  /** `add_format`: stores (or replaces) the regex under the alias. */
  function AddFormat(s: ProcessingStore, id: string, format: string): (r: ProcessingStore)
    ensures GetFormat(r, id) == Some(format)
    ensures forall k :: k != id ==> GetFormat(r, k) == GetFormat(s, k)
    ensures r.filters == s.filters
  {
    s.(formats := s.formats[id := format])
  }

  /** `get_format`: the regex stored under the alias, if any. */
  function GetFormat(s: ProcessingStore, id: string): (r: Option<string>)
    ensures r.Some? <==> id in s.formats
    ensures r.Some? ==> r.value == s.formats[id]
  {
    if id in s.formats then Some(s.formats[id]) else None
  }

  /** `get_formats`: every stored format once, in the map's iteration order. */
  method GetFormats(s: ProcessingStore) returns (r: seq<Format>)
    ensures |r| == |s.formats|
    ensures forall i :: 0 <= i < |r| ==> GetFormat(s, r[i].alias) == Some(r[i].regex)
    ensures forall id :: id in s.formats ==> exists i :: 0 <= i < |r| && r[i] == Format(id, s.formats[id])
    ensures forall i, j :: 0 <= i < j < |r| ==> r[i].alias != r[j].alias
  {
    var ids := Maps.Keys(s.formats);
    r := seq(|ids|, i requires 0 <= i < |ids| => Format(ids[i], s.formats[ids[i]]));
    forall id | id in s.formats
      ensures exists i :: 0 <= i < |r| && r[i] == Format(id, s.formats[id])
    {
      var i :| 0 <= i < |ids| && ids[i] == id;
      assert r[i] == Format(id, s.formats[id]);
    }
  }

  /** `add_filter`: stores (or replaces) the filter under the alias. */
  function AddFilter(s: ProcessingStore, id: string, filter: LogLine, action: FilterAction, enabled: bool): (r: ProcessingStore)
    ensures id in r.filters && r.filters[id] == (action, filter, enabled)
    ensures forall k :: k != id ==> (k in r.filters <==> k in s.filters)
    ensures forall k :: k != id && k in s.filters ==> r.filters[k] == s.filters[k]
    ensures r.formats == s.formats
  {
    s.(filters := s.filters[id := (action, filter, enabled)])
  }

  /** `get_filters`: every stored filter once, with its alias and enabled flag. */
  method GetFilters(s: ProcessingStore) returns (r: seq<(bool, Filter)>)
    ensures |r| == |s.filters|
    ensures forall i :: 0 <= i < |r| ==>
      (r[i].1.alias in s.filters && s.filters[r[i].1.alias] == (r[i].1.action, r[i].1.filter, r[i].0))
    ensures forall id :: id in s.filters ==> exists i :: 0 <= i < |r| && r[i].1.alias == id
    ensures forall i, j :: 0 <= i < j < |r| ==> r[i].1.alias != r[j].1.alias
  {
    var ids := Maps.Keys(s.filters);
    r := seq(|ids|, i requires 0 <= i < |ids| =>
      var (action, filter, enabled) := s.filters[ids[i]];
      (enabled, Filter(ids[i], action, filter)));
    forall id | id in s.filters
      ensures exists i :: 0 <= i < |r| && r[i].1.alias == id
    {
      var i :| 0 <= i < |ids| && ids[i] == id;
      assert r[i].1.alias == id;
    }
  }

  /** `toggle_filter`: flips the enabled flag of a known filter; an unknown alias changes nothing. */
  function ToggleFilter(s: ProcessingStore, id: string): (r: ProcessingStore)
    ensures r.filters.Keys == s.filters.Keys
    ensures id in s.filters ==>
      (r.filters[id].0 == s.filters[id].0 && r.filters[id].1 == s.filters[id].1 && r.filters[id].2 == !s.filters[id].2)
    ensures forall k :: k in s.filters && k != id ==> r.filters[k] == s.filters[k]
    ensures r.formats == s.formats
  {
    if id in s.filters then
      var (action, filter, enabled) := s.filters[id];
      s.(filters := s.filters[id := (action, filter, !enabled)])
    else s
  }

  lemma ToggleFilterTwiceRestores(s: ProcessingStore, id: string)
    ensures ToggleFilter(ToggleFilter(s, id), id) == s
  {
  }
}
