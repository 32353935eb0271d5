/**
 * The selectable table of the terminal interface (`data/stateful_table.rs`):
 * a list of items and an optional selected row. Moving past either end
 * wraps around. Only the number of items matters to the selection, so the
 * items themselves are a type parameter that is never inspected.
 */
module StatefulTables {
  import opened Wrappers

  datatype StatefulTable<T> = StatefulTable(items: seq<T>, selected: Option<nat>)

  /** `state.selected().unwrap_or_default()` */
  function Reported<T>(t: StatefulTable<T>): (n: nat)
    ensures t.selected.Some? ==> n == t.selected.value
    ensures t.selected.None? ==> n == 0
  {
    t.selected.GetOr(0)
  }

  /**
   * `next`: on a non-empty table, select the row after the current one,
   * wrapping from the last row (or beyond) to the first; select the first
   * row when nothing is selected. An empty table is left alone. The result
   * is the table and the row reported to the caller.
   */
  function Next<T>(t: StatefulTable<T>): (r: (StatefulTable<T>, nat))
    ensures r.0.items == t.items
    ensures |t.items| == 0 ==> r.0 == t
    ensures |t.items| > 0 ==> r.0.selected.Some? && r.0.selected.value < |t.items|
    ensures |t.items| > 0 && t.selected.None? ==> r.0.selected == Some(0)
    ensures |t.items| > 0 && t.selected.Some? && t.selected.value < |t.items| ==>
      r.0.selected == Some((t.selected.value + 1) % |t.items|)
    ensures r.1 == Reported(r.0)
  {
    if |t.items| > 0 then
      var i := match t.selected
        case Some(i) => if i >= |t.items| - 1 then 0 else i + 1
        case None => 0;
      var t' := t.(selected := Some(i));
      (t', Reported(t'))
    else (t, Reported(t))
  }

  /**
   * `previous`: on a non-empty table, select the row before the current one,
   * wrapping from the first row to the last; select the first row when
   * nothing is selected. An empty table is left alone.
   */
  function Previous<T>(t: StatefulTable<T>): (r: (StatefulTable<T>, nat))
    ensures r.0.items == t.items
    ensures |t.items| == 0 ==> r.0 == t
    ensures |t.items| > 0 ==> r.0.selected.Some?
    ensures |t.items| > 0 && t.selected.None? ==> r.0.selected == Some(0)
    ensures |t.items| > 0 && t.selected.Some? && t.selected.value < |t.items| ==>
      r.0.selected == Some((t.selected.value + |t.items| - 1) % |t.items|)
    ensures r.1 == Reported(r.0)
  {
    if |t.items| > 0 then
      var i := match t.selected
        case Some(i) => if i == 0 then |t.items| - 1 else i - 1
        case None => 0;
      assert t.selected.Some? && t.selected.value < |t.items| ==> i == (t.selected.value + |t.items| - 1) % |t.items| by {
        if t.selected.Some? && t.selected.value < |t.items| { WrapBack(t.selected.value, |t.items|); }
      }
      var t' := t.(selected := Some(i));
      (t', Reported(t'))
    else (t, Reported(t))
  }

  /** One row back, modulo the table size. */
  lemma WrapBack(i: nat, n: nat)
    requires i < n
    ensures (i + n - 1) % n == if i == 0 then n - 1 else i - 1
  {
  }

  /** `unselect` */
  function Unselect<T>(t: StatefulTable<T>): (r: StatefulTable<T>)
    ensures r.selected.None? && r.items == t.items
  {
    t.(selected := None)
  }

  /** The selected row, if any, is a row of the table. */
  predicate InRange<T>(t: StatefulTable<T>) {
    t.selected.Some? ==> t.selected.value < |t.items|
  }

  /**
   * `next` always lands inside the table; `previous` does too unless it
   * starts from a selection that was already past the end.
   */
  lemma MovesStayInRange<T>(t: StatefulTable<T>)
    ensures InRange(t) || |t.items| > 0 ==> InRange(Next(t).0)
    ensures InRange(t) ==> InRange(Previous(t).0)
  {
  }

  /** `previous` from a row past the end lands on another row past the end, unlike `next`. */
  lemma PreviousKeepsStaleSelection<T>(t: StatefulTable<T>)
    requires t.selected.Some? && t.selected.value > |t.items| > 0
    ensures !InRange(Previous(t).0)
  {
  }

  /** On a table with a valid selection, `previous` undoes `next` and `next` undoes `previous`. */
  lemma NextPreviousInverse<T>(t: StatefulTable<T>)
    requires t.selected.Some? && InRange(t)
    ensures Previous(Next(t).0).0 == t
    ensures Next(Previous(t).0).0 == t
  {
  }
}
