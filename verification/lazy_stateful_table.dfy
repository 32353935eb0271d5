/**
 * The lazily loaded table of the terminal interface
 * (`data/lazy_stateful_table.rs`). It keeps a window of at most CAPACITY
 * consecutive items of a longer source, starting at `offset`, and slides
 * the window by up to ROOM items when the selection moves near either end.
 *
 * The source is modelled as a backing sequence read through a clamped
 * window, as the table's own test source and the analysis store do. The
 * scroll offset that the table widget keeps for rendering is not modelled.
 */
module LazyTables {
  import opened Wrappers
  import opened Seqs

  const CAPACITY: nat := 1000
  const ROOM: nat := 100

  datatype Area = Below | Inside | Above

  /** `Area::current_area`: below 400, 400 to 600 inclusive, above 600. */
  function CurrentArea(i: nat): (a: Area)
    ensures a == Below <==> i < CAPACITY / 2 - ROOM
    ensures a == Inside <==> CAPACITY / 2 - ROOM <= i <= CAPACITY / 2 + ROOM
    ensures a == Above <==> i > CAPACITY / 2 + ROOM
  {
    if i < CAPACITY / 2 - ROOM then Below
    else if CAPACITY / 2 - ROOM <= i && i <= CAPACITY / 2 + ROOM then Inside
    else if i > CAPACITY / 2 + ROOM then Above
    else Below
  }

  datatype LazyTable<T> = LazyTable(items: seq<T>, offset: nat, selected: Option<nat>)

  /** `LazySource::source(from, to)` over a backing sequence. */
  function Source<T>(data: seq<T>, from: nat, to: nat): (r: seq<T>)
    requires from <= to
    ensures |r| <= to - from
    ensures to <= |data| ==> |r| == to - from
    ensures from <= |data| ==> r == data[from..Min(to, |data|)]
  {
    Window(data, from, to)
  }

  /**
   * The table shows a slice of the source that starts at `offset`, is at most
   * CAPACITY long, and holds the selected row; once the window has slid
   * away from the start it is longer than the point where sliding begins.
   */
  ghost predicate Valid<T>(t: LazyTable<T>, data: seq<T>) {
    && |t.items| <= CAPACITY
    && t.offset + |t.items| <= |data|
    && t.items == data[t.offset..t.offset + |t.items|]
    && (t.selected.Some? ==> t.selected.value < |t.items|)
    && (t.offset > 0 ==> |t.items| > CAPACITY / 2 + ROOM)
  }

  /** `LazyStatefulTable::new`: the first CAPACITY items, nothing selected. */
  function New<T>(data: seq<T>): (t: LazyTable<T>)
    ensures t.offset == 0 && t.selected.None?
    ensures |t.items| == Min(CAPACITY, |data|)
    ensures Valid(t, data)
  {
    LazyTable(Source(data, 0, CAPACITY), 0, None)
  }

  /** Both movements first reload an empty window from the start of the source. */
  function Reload<T>(t: LazyTable<T>, data: seq<T>): (r: LazyTable<T>)
    ensures |t.items| > 0 ==> r == t
    ensures |t.items| == 0 ==> r.items == Source(data, 0, CAPACITY) && r.offset == t.offset && r.selected == t.selected
  {
    if |t.items| == 0 then t.(items := Source(data, 0, CAPACITY)) else t
  }

  /**
   * `next` as written. Near the bottom of the window it fetches up to ROOM
   * items from position CAPACITY + offset, rotates them in and overwrites
   * positions CAPACITY - k .. CAPACITY. Rust panics when the rotation is
   * longer than the window or that range lies past its end; `None` stands
   * for the panic.
   */
  function NextAsWritten<T>(t: LazyTable<T>, data: seq<T>): (r: Option<LazyTable<T>>)
    ensures r.None? ==> |Reload(t, data).items| < CAPACITY
  {
    var t := Reload(t, data);
    if |t.items| == 0 then Some(t)
    else if t.selected.None? then Some(t.(selected := Some(0)))
    else
      var i := t.selected.value;
      if CurrentArea(i) == Above then
          var last := CAPACITY + t.offset;
          var fetched := Source(data, last, last + ROOM);
          var k := |fetched|;
          if k > |t.items| || CAPACITY > |t.items| then None
          else
            var rotated := t.items[k..] + t.items[..k];
            var items := rotated[..CAPACITY - k] + fetched + rotated[CAPACITY..];
            Some(LazyTable(items, t.offset + k, Some(i - k + if i + 1 < |t.items| then 1 else 0)))
      else Some(t.(selected := Some(if i + 1 < |t.items| then i + 1 else i)))
  }

  /**
   * `next` as evidently intended: the fetch starts right after the last item
   * of the window and the fetched items replace the first k, whatever the
   * window's length.
   */
  function Next<T>(t: LazyTable<T>, data: seq<T>): (r: LazyTable<T>)
    ensures |Reload(t, data).items| > 0 ==> r.selected.Some?
    ensures |r.items| == |Reload(t, data).items|
    ensures |Reload(t, data).items| > 0 && t.selected.None? ==> r.selected == Some(0)
    ensures Valid(t, data) && t.selected.Some? && CurrentArea(t.selected.value) != Above ==>
      r.items == t.items && r.offset == t.offset
  {
    var t := Reload(t, data);
    if |t.items| == 0 then t
    else if t.selected.None? then t.(selected := Some(0))
    else
      var i := t.selected.value;
      if CurrentArea(i) == Above then SlideDown(t, i, data)
      else t.(selected := Some(if i + 1 < |t.items| then i + 1 else i))
  }

  /**
   * The slide of `next` near the bottom of the window: up to ROOM items that
   * follow the window come in at the end, as many leave at the start, and
   * the selection moves with its row and then one row down.
   */
  function SlideDown<T>(t: LazyTable<T>, i: nat, data: seq<T>): (r: LazyTable<T>)
    requires CurrentArea(i) == Above
    ensures |r.items| == |t.items| && t.offset <= r.offset <= t.offset + ROOM
    ensures t.offset + |t.items| <= |data| ==> r.offset == t.offset + Min(ROOM, |data| - (t.offset + |t.items|))
    ensures r.selected == Some(i - (r.offset - t.offset) + if i + 1 < |t.items| then 1 else 0)
    ensures t.offset + |t.items| <= |data| && t.items == data[t.offset..t.offset + |t.items|] ==>
      r.offset + |r.items| <= |data| && r.items == data[r.offset..r.offset + |r.items|]
  {
    var last := t.offset + |t.items|;
    var fetched := Source(data, last, last + ROOM);
    var k := |fetched|;
    var items := (t.items + fetched)[k..];
    SlideDownKeepsWindow(t.items, t.offset, data);
    LazyTable(items, t.offset + k, Some(i - k + if i + 1 < |t.items| then 1 else 0))
  }

  /**
   * `previous`. Near the top of the window it fetches up to ROOM items that
   * precede the window, puts them in front and drops as many from the end.
   * The rotation cannot be longer than a valid window (`ValidPreviousFits`).
   */
  function Previous<T>(t: LazyTable<T>, data: seq<T>): (r: LazyTable<T>)
    ensures |Reload(t, data).items| > 0 ==> r.selected.Some?
    ensures |r.items| == |Reload(t, data).items|
    ensures |Reload(t, data).items| > 0 && t.selected.None? ==> r.selected == Some(0)
    ensures Valid(t, data) && t.selected.Some? && CurrentArea(t.selected.value) != Below ==>
      r.items == t.items && r.offset == t.offset
  {
    var t := Reload(t, data);
    if |t.items| == 0 then t
    else if t.selected.None? then t.(selected := Some(0))
    else
      var i := t.selected.value;
      if CurrentArea(i) == Below then SlideUp(t, i, data)
      else t.(selected := Some(if i > 0 then i - 1 else i))
  }

  /**
   * The slide of `previous` near the top of the window: up to ROOM items that
   * precede the window come in at the start, as many leave at the end, and
   * the selection moves with its row and then one row up.
   */
  function SlideUp<T>(t: LazyTable<T>, i: nat, data: seq<T>): (r: LazyTable<T>)
    ensures |r.items| == |t.items| && r.offset <= t.offset <= r.offset + ROOM
    ensures r.selected == Some(i + (t.offset - r.offset) - if i > 0 then 1 else 0)
    ensures t.offset + |t.items| <= |data| && t.items == data[t.offset..t.offset + |t.items|] ==>
      && r.offset == (if t.offset > ROOM then t.offset - ROOM else 0)
      && r.items == data[r.offset..r.offset + |r.items|]
  {
    var initial := if t.offset > ROOM then t.offset - ROOM else 0;
    var fetched := Source(data, initial, t.offset);
    var k := |fetched|;
    var items := (fetched + t.items)[..|t.items|];
    SlideUpKeepsWindow(t.items, t.offset, data);
    LazyTable(items, t.offset - k, Some(i + k - if i > 0 then 1 else 0))
  }

  /** Sliding down: the window moved forward by the number of rows fetched after it. */
  lemma SlideDownKeepsWindow<T>(items: seq<T>, offset: nat, data: seq<T>)
    ensures offset + |items| <= |data| && items == data[offset..offset + |items|] ==>
            var fetched := Source(data, offset + |items|, offset + |items| + ROOM);
            && offset + |fetched| + |items| <= |data|
            && (items + fetched)[|fetched|..] == data[offset + |fetched|..offset + |fetched| + |items|]
  {
    if offset + |items| <= |data| && items == data[offset..offset + |items|] {
      var last := offset + |items|;
      var fetched := Source(data, last, last + ROOM);
      assert fetched == data[last..last + |fetched|];
      assert items + fetched == data[offset..last + |fetched|];
    }
  }

  /** Sliding up: the window moved back by the number of rows fetched before it. */
  lemma SlideUpKeepsWindow<T>(items: seq<T>, offset: nat, data: seq<T>)
    ensures offset + |items| <= |data| && items == data[offset..offset + |items|] ==>
            var initial := if offset > ROOM then offset - ROOM else 0;
            var fetched := Source(data, initial, offset);
            && |fetched| == offset - initial
            && (fetched + items)[..|items|] == data[initial..initial + |items|]
  {
    if offset + |items| <= |data| && items == data[offset..offset + |items|] {
      var initial := if offset > ROOM then offset - ROOM else 0;
      var fetched := Source(data, initial, offset);
      assert fetched == data[initial..offset];
      assert fetched + items == data[initial..offset + |items|];
    }
  }

  /** `next` keeps the window a valid slice of the source holding the selection. */
  lemma NextPreservesValid<T>(t: LazyTable<T>, data: seq<T>)
    requires Valid(t, data)
    ensures Valid(Next(t, data), data)
  {
    if |t.items| == 0 {
      assert Source(data, 0, CAPACITY) == data[0..Min(CAPACITY, |data|)];
    }
  }

  /** `previous` keeps the window a valid slice of the source holding the selection. */
  lemma PreviousPreservesValid<T>(t: LazyTable<T>, data: seq<T>)
    requires Valid(t, data)
    ensures Valid(Previous(t, data), data)
  {
    if |t.items| == 0 {
      assert Source(data, 0, CAPACITY) == data[0..Min(CAPACITY, |data|)];
    }
  }

  /** In a valid table the rows `previous` fetches never outnumber the window. */
  lemma ValidPreviousFits<T>(t: LazyTable<T>, data: seq<T>)
    requires Valid(t, data)
    ensures |Source(data, if t.offset > ROOM then t.offset - ROOM else 0, t.offset)| <= |t.items|
  {
  }

  /** `unselect` */
  function Unselect<T>(t: LazyTable<T>): (r: LazyTable<T>)
    ensures r.selected.None? && r.items == t.items && r.offset == t.offset
  {
    t.(selected := None)
  }

  /** A source that only grows keeps a valid window valid. */
  lemma ValidUnderGrowth<T>(t: LazyTable<T>, data: seq<T>, more: seq<T>)
    requires Valid(t, data)
    ensures Valid(t, data + more)
  {
    assert (data + more)[t.offset..t.offset + |t.items|] == data[t.offset..t.offset + |t.items|];
  }

  /** On a full window the written `next` is the intended one. */
  lemma NextAgreesOnFullWindow<T>(t: LazyTable<T>, data: seq<T>)
    requires Valid(t, data) && |t.items| == CAPACITY
    ensures NextAsWritten(t, data) == Some(Next(t, data))
  {
    if t.selected.Some? && CurrentArea(t.selected.value) == Above {
      var i := t.selected.value;
      var k := |Source(data, CAPACITY + t.offset, CAPACITY + t.offset + ROOM)|;
      var fetched := Source(data, CAPACITY + t.offset, CAPACITY + t.offset + ROOM);
      var rotated := t.items[k..] + t.items[..k];
      assert rotated[..CAPACITY - k] == t.items[k..];
      assert rotated[CAPACITY..] == [];
      assert rotated[..CAPACITY - k] + fetched + rotated[CAPACITY..] == t.items[k..] + fetched;
      assert Reload(t, data) == t;
      assert !(k > |t.items| || CAPACITY > |t.items|);
      assert (t.items + fetched)[k..] == t.items[k..] + fetched;
      var sel := Some(i - k + if i + 1 < |t.items| then 1 else 0);
      assert NextAsWritten(t, data) == Some(LazyTable(t.items[k..] + fetched, t.offset + k, sel));
      assert Next(t, data) == LazyTable(t.items[k..] + fetched, t.offset + k, sel);
    }
  }

  /** The numbers 0 .. n-1, the source used by the table's own scenarios. */
  function Count(n: nat): (s: seq<nat>)
    ensures |s| == n && forall i :: 0 <= i < n ==> s[i] == i
  {
    seq(n, i => i)
  }

  /**
   * The scenario of the table's tests on 2000 items: the window starts as
   * 0..999; selecting row 601 and moving down slides it to 100..1099; then
   * selecting row 399 and moving up slides it back to 0..999.
   */
  lemma SlidingScenario()
    ensures var t := New(Count(2000));
      && t.items[0] == 0 && t.items[|t.items| - 1] == 999
      && var down := Next(t.(selected := Some(601)), Count(2000));
      && down.items[0] == 100 && down.items[|down.items| - 1] == 1099
      && var up := Previous(down.(selected := Some(399)), Count(2000));
      && up.items[0] == 0 && up.items[|up.items| - 1] == 999
  {
    var data := Count(2000);
    var t := New(data);
    var down := Next(t.(selected := Some(601)), data);
    assert Valid(t.(selected := Some(601)), data);
    assert down.offset == 100;
    assert down.items == data[100..1100];
    var up := Previous(down.(selected := Some(399)), data);
    assert up.items == data[0..1000];
  }

  /** A source of 700 items: the window holds them all. */
  lemma {:induction false} ScrollsTo601(k: nat)
    requires k <= 601
    ensures Steps(New(Count(700)), Count(700), k + 1) == LazyTable(Count(700), 0, Some(k))
  {
    var data := Count(700);
    assert New(data).items == data;
    if k > 0 {
      ScrollsTo601(k - 1);
      MovesDownInside(LazyTable(data, 0, Some(k - 1)), data);
    }
  }

  /** Away from the bottom of the window `next` only moves the selection one row down. */
  lemma MovesDownInside<T>(t: LazyTable<T>, data: seq<T>)
    requires |t.items| > 0 && t.selected.Some? && CurrentArea(t.selected.value) != Above
    ensures Next(t, data) == t.(selected := Some(if t.selected.value + 1 < |t.items| then t.selected.value + 1 else t.selected.value))
  {
  }

  /** Away from the top edge, `previous` only moves the selection one row up, stopping at row 0. */
  lemma MovesUpInside<T>(t: LazyTable<T>, data: seq<T>)
    requires |t.items| > 0 && t.selected.Some? && CurrentArea(t.selected.value) != Below
    ensures Previous(t, data) == t.(selected := Some(if t.selected.value > 0 then t.selected.value - 1 else t.selected.value))
  {
  }

  /** Near the bottom edge, `next` slides the (reloaded) window down. */
  lemma SlidesAtBottom<T>(t: LazyTable<T>, data: seq<T>)
    requires |Reload(t, data).items| > 0 && t.selected.Some? && CurrentArea(t.selected.value) == Above
    ensures Next(t, data) == SlideDown(Reload(t, data), t.selected.value, data)
  {
  }

  /** Near the top edge, `previous` slides the (reloaded) window up. */
  lemma SlidesAtTop<T>(t: LazyTable<T>, data: seq<T>)
    requires |Reload(t, data).items| > 0 && t.selected.Some? && CurrentArea(t.selected.value) == Below
    ensures Previous(t, data) == SlideUp(Reload(t, data), t.selected.value, data)
  {
  }

  /**
   * Away from the bottom edge the written `next` takes the same step as the
   * corrected one: the two differ only where the window slides.
   */
  lemma AsWrittenAgreesAwayFromBottom<T>(t: LazyTable<T>, data: seq<T>)
    requires t.selected.None? || CurrentArea(t.selected.value) != Above
    ensures NextAsWritten(t, data) == Some(Next(t, data))
  {
  }

  /** `k` presses of the down key. */
  function Steps<T>(t: LazyTable<T>, data: seq<T>, k: nat): LazyTable<T> {
    if k == 0 then t else Next(Steps(t, data, k - 1), data)
  }

  /**
   * On a source of 700 items, 602 presses of the down key reach row 601;
   * one more press makes the written `next` panic, while the intended one
   * moves on to row 602.
   */
  lemma NextPanicsOnShortWindow(n: nat, presses: nat)
    requires n == 700 && presses == 602
    ensures var data := Count(n);
      var t := Steps(New(data), data, presses);
      && t.selected == Some(601)
      && Valid(t, data)
      && NextAsWritten(t, data).None?
      && Next(t, data).selected == Some(602)
  {
    var data := Count(n);
    ScrollsTo601(601);
    var t := Steps(New(data), data, presses);
    assert t == LazyTable(data, 0, Some(601));
    ShortWindowPanics(data, t);
  }

  lemma ShortWindowPanics(data: seq<nat>, t: LazyTable<nat>)
    requires |data| == 700 && t == LazyTable(data, 0, Some(601))
    ensures Valid(t, data)
    ensures NextAsWritten(t, data).None?
    ensures Next(t, data).selected == Some(602)
  {
    assert data[0..700] == data;
    assert CurrentArea(601) == Above;
    assert |Source(data, CAPACITY, CAPACITY + ROOM)| == 0;
    assert |Source(data, 700, 700 + ROOM)| == 0;
  }
}
