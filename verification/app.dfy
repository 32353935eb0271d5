/**
 * The sequential helpers of the terminal application (`app.rs`): the input
 * field indexes, the focus of the processing indicator, the colour parser
 * of the filter popup, the panel size ratios, the filter-type and
 * source-type selectors and the focus movement between panels.
 */
module App {
  import opened Wrappers
  import opened LogLines
  import Decimal

  /* Input fields of the new-source popup. */
  const INDEX_SOURCE_TYPE: nat := 0
  const INDEX_SOURCE_PATH: nat := INDEX_SOURCE_TYPE + 1
  const INDEX_SOURCE_FORMAT: nat := INDEX_SOURCE_PATH + 1
  const INDEX_SOURCE_NEW_FORMAT_ALIAS: nat := INDEX_SOURCE_FORMAT + 1
  const INDEX_SOURCE_NEW_FORMAT_REGEX: nat := INDEX_SOURCE_NEW_FORMAT_ALIAS + 1
  const INDEX_SOURCE_OK_BUTTON: nat := INDEX_SOURCE_NEW_FORMAT_REGEX + 1
  /* Input fields of the filter popup. */
  const INDEX_FILTER_NAME: nat := INDEX_SOURCE_OK_BUTTON + 1
  const INDEX_FILTER_TYPE: nat := INDEX_FILTER_NAME + 1
  const INDEX_FILTER_LOG: nat := INDEX_FILTER_TYPE + 1
  const INDEX_FILTER_DATETIME: nat := INDEX_FILTER_LOG + 1
  const INDEX_FILTER_TIMESTAMP: nat := INDEX_FILTER_DATETIME + 1
  const INDEX_FILTER_APP: nat := INDEX_FILTER_TIMESTAMP + 1
  const INDEX_FILTER_SEVERITY: nat := INDEX_FILTER_APP + 1
  const INDEX_FILTER_FUNCTION: nat := INDEX_FILTER_SEVERITY + 1
  const INDEX_FILTER_PAYLOAD: nat := INDEX_FILTER_FUNCTION + 1
  const INDEX_FILTER_RED_COLOR: nat := INDEX_FILTER_PAYLOAD + 1
  const INDEX_FILTER_GREEN_COLOR: nat := INDEX_FILTER_RED_COLOR + 1
  const INDEX_FILTER_BLUE_COLOR: nat := INDEX_FILTER_GREEN_COLOR + 1
  const INDEX_FILTER_OK_BUTTON: nat := INDEX_FILTER_BLUE_COLOR + 1
  /* The search box and the navigation popup. */
  const INDEX_SEARCH: nat := INDEX_FILTER_OK_BUTTON + 1
  const INDEX_NAVIGATION: nat := INDEX_SEARCH + 1
  const INDEX_MAX: nat := INDEX_NAVIGATION + 1

  /** The indexes number the input buffers consecutively, the two popups' fields in disjoint blocks. */
  lemma IndexLayout()
    ensures INDEX_SOURCE_OK_BUTTON == 5 && INDEX_FILTER_NAME == 6 && INDEX_FILTER_OK_BUTTON == 18
    ensures INDEX_SEARCH == 19 && INDEX_NAVIGATION == 20 && INDEX_MAX == 21
  {
  }

  /** `Processing::set_focus`: the given row, or the first one when there is none. */
  function SetFocus(focus: Option<nat>): (r: nat)
    ensures focus.Some? ==> r == focus.value
    ensures focus.None? ==> r == 0
  {
    match focus
    case Some(f) => f
    case None => 0
  }

  /**
   * `parse_color(r, g, b)`: nothing when none of the three texts is a `u8`;
   * otherwise each component is its parsed value, or 0 when that one text
   * does not parse.
   */
  function ParseColor(r: string, g: string, b: string): (c: Option<Rgb>)
    ensures c.None? <==>
      Decimal.ParseUnsigned(r, Decimal.U8_MAX).None? && Decimal.ParseUnsigned(g, Decimal.U8_MAX).None?
      && Decimal.ParseUnsigned(b, Decimal.U8_MAX).None?
    ensures c.Some? ==> c.value.r as int == Decimal.ParseUnsigned(r, Decimal.U8_MAX).GetOr(0)
    ensures c.Some? ==> c.value.g as int == Decimal.ParseUnsigned(g, Decimal.U8_MAX).GetOr(0)
    ensures c.Some? ==> c.value.b as int == Decimal.ParseUnsigned(b, Decimal.U8_MAX).GetOr(0)
  {
    var pr := Decimal.ParseUnsigned(r, Decimal.U8_MAX);
    var pg := Decimal.ParseUnsigned(g, Decimal.U8_MAX);
    var pb := Decimal.ParseUnsigned(b, Decimal.U8_MAX);
    if pr.Some? || pg.Some? || pb.Some? then
      Some(Rgb(pr.GetOr(0) as u8, pg.GetOr(0) as u8, pb.GetOr(0) as u8))
    else None
  }

  /** A colour written out as three decimal components parses back to itself. */
  lemma ParseColorRoundTrip(c: Rgb)
    ensures ParseColor(Decimal.NatToString(c.r as nat), Decimal.NatToString(c.g as nat), Decimal.NatToString(c.b as nat)) == Some(c)
  {
    Decimal.ParseNatToString(c.r as nat, Decimal.U8_MAX);
    Decimal.ParseNatToString(c.g as nat, Decimal.U8_MAX);
    Decimal.ParseNatToString(c.b as nat, Decimal.U8_MAX);
  }

  const U16_MAX: nat := 0xFFFF

  /**
   * `increase_ratio`: grows the ratio by `step`, never beyond `max`. The
   * `u16` addition panics on overflow, hence the requirement.
   */
  function IncreaseRatio(ratio: nat, step: nat, max: nat): (r: nat)
    requires ratio + step <= U16_MAX
    ensures r <= max
    ensures r == ratio + step || r == max
    ensures ratio + step <= max ==> r == ratio + step
  {
    if ratio + step <= max then ratio + step else max
  }

  /**
   * `decrease_ratio`: shrinks the ratio by `step` while it is above `min`,
   * otherwise leaves it. The `u16` subtraction panics below zero, hence the
   * requirement.
   */
  function DecreaseRatio(ratio: nat, step: nat, min: nat): (r: nat)
    requires ratio > min ==> ratio >= step
    ensures ratio <= min ==> r == ratio
    ensures ratio > min ==> r + step == ratio
  {
    if ratio > min then ratio - step else ratio
  }

  /** Every call site moves a panel ratio by this step. */
  const RATIO_STEP: nat := 5

  /**
   * The ratios start at multiples of 5 and move by 5 between bounds that
   * are multiples of 5: such a ratio stays a multiple of the step and within
   * its bounds, so the subtraction never underflows.
   */
  lemma RatioStaysInBounds(ratio: nat, min: nat, max: nat)
    requires min <= ratio <= max <= U16_MAX - RATIO_STEP
    requires ratio % RATIO_STEP == 0 && min % RATIO_STEP == 0 && max % RATIO_STEP == 0
    ensures var up := IncreaseRatio(ratio, RATIO_STEP, max);
      min <= up <= max && up % RATIO_STEP == 0
    ensures ratio > min ==> ratio >= RATIO_STEP
    ensures ratio > min ==> var down := DecreaseRatio(ratio, RATIO_STEP, min);
      min <= down <= max && down % RATIO_STEP == 0
  {
    if ratio > min {
      MultiplesApart(ratio, min);
    }
    if ratio < max {
      MultiplesApart(max, ratio);
    }
  }

  lemma MultiplesApart(a: nat, b: nat)
    requires a > b && a % RATIO_STEP == 0 && b % RATIO_STEP == 0
    ensures a >= b + RATIO_STEP
  {
  }

  /** Two's complement reading of the low 32 bits (`usize as i32`). */
  function AsI32(n: nat): (r: int)
    ensures -0x8000_0000 <= r < 0x8000_0000
    ensures n < 0x8000_0000 ==> r == n
  {
    var low := n % 0x1_0000_0000;
    if low < 0x8000_0000 then low else low - 0x1_0000_0000
  }

  /**
   * The `circular_choice` closure of the filter popup: steps the filter type
   * by `add` and wraps past either end of 0 ..= max. The `i32` addition
   * panics on overflow, hence the requirement.
   */
  function CircularChoice(i: nat, max: nat, add: int): (r: nat)
    requires max < 0x8000_0000
    requires -0x8000_0000 <= AsI32(i) + add < 0x8000_0000
    ensures r <= max
    ensures i + add <= max && 0 <= i + add && i < 0x8000_0000 ==> r == i + add
  {
    var s := AsI32(i) + add;
    if s > max then 0
    else if s < 0 then max
    else s
  }

  /** Stepping past the last filter type gives the first and stepping before the first gives the last. */
  lemma CircularChoiceWraps(max: nat)
    requires max < 0x7FFF_FFFF
    ensures CircularChoice(max, max, 1) == 0
    ensures CircularChoice(0, max, -1) == max
  {
  }

  /** Right then left (or left then right) returns to the same filter type. */
  lemma CircularChoiceInverse(i: nat, max: nat)
    requires i <= max < 0x7FFF_FFFF
    ensures CircularChoice(CircularChoice(i, max, 1), max, -1) == i
    ensures CircularChoice(CircularChoice(i, max, -1), max, 1) == i
  {
  }

  /** The source-type switch `!x & 1` on a 64-bit `usize`. */
  function FlipSourceType(x: bv64): (r: bv64)
    ensures r == 0 || r == 1
  {
    !x & 1
  }

  /** The switch maps 0 to 1 and 1 to 0, so pressing it twice restores the type. */
  lemma FlipSourceTypeSwaps()
    ensures FlipSourceType(0) == 1 && FlipSourceType(1) == 0
    ensures FlipSourceType(FlipSourceType(0)) == 0 && FlipSourceType(FlipSourceType(1)) == 1
  {
  }

  /** Whatever the current code, the switch yields 1 for an even code and 0 for an odd one. */
  lemma FlipSourceTypeParity(x: bv64)
    ensures FlipSourceType(x) == if x & 1 == 0 then 1 else 0
  {
  }

  datatype Module =
    | Sources | Filters | Logs | Search | SearchResult
    | SourcePopup | FilterPopup | NavigationPopup | ErrorPopup
    /** `Module::None` */
    | NoModule

  datatype Key = Up | Down | Left | Right | Other

  /** The part of the application state that `navigate` reads and writes. */
  datatype Focus = Focus(
    focused: Module,
    inputIndex: nat,
    sidePercentage: nat,
    sourcesSelected: Option<nat>,
    filtersSelected: Option<nat>)

  /**
   * `navigate`: moves the focus between panels, or between the fields of an
   * open popup. Leaving the sources or filters panel clears its selection.
   */
  function Navigate(s: Focus, k: Key): (r: Focus)
    ensures r.sidePercentage == s.sidePercentage
    ensures r.inputIndex != s.inputIndex ==> s.focused in {SourcePopup, FilterPopup}
    ensures r.focused != s.focused ==> s.focused in {Sources, Filters, Logs, Search, SearchResult, NoModule}
    ensures s.focused == Sources ==> r.sourcesSelected.None?
    ensures s.focused == Filters ==> r.filtersSelected.None?
    ensures s.focused != Sources ==> r.sourcesSelected == s.sourcesSelected
    ensures s.focused != Filters ==> r.filtersSelected == s.filtersSelected
  {
    match s.focused
    case Sources =>
      var m := if k == Up || k == Down then Filters else if k == Left || k == Right then Logs else Sources;
      s.(focused := m, sourcesSelected := Option.None)
    case Filters =>
      var m := if k == Up || k == Down then Sources else if k == Left || k == Right then Search else Filters;
      s.(focused := m, filtersSelected := Option.None)
    case Logs =>
      if k == Up then s.(focused := SearchResult)
      else if k == Down then s.(focused := Search)
      else if (k == Left || k == Right) && s.sidePercentage > 0 then s.(focused := Sources)
      else s
    case Search =>
      if k == Up then s.(focused := Logs)
      else if k == Down then s.(focused := SearchResult)
      else if (k == Left || k == Right) && s.sidePercentage > 0 then s.(focused := Filters)
      else s
    case SearchResult =>
      if k == Up then s.(focused := Search)
      else if k == Down then s.(focused := Logs)
      else if (k == Left || k == Right) && s.sidePercentage > 0 then s.(focused := Filters)
      else s
    case SourcePopup =>
      if k == Up && s.inputIndex > INDEX_SOURCE_TYPE then s.(inputIndex := s.inputIndex - 1)
      else if k == Down && s.inputIndex < INDEX_SOURCE_OK_BUTTON then s.(inputIndex := s.inputIndex + 1)
      else s
    case FilterPopup =>
      if k == Up && s.inputIndex > INDEX_FILTER_NAME then s.(inputIndex := s.inputIndex - 1)
      else if k == Down && s.inputIndex < INDEX_FILTER_OK_BUTTON then s.(inputIndex := s.inputIndex + 1)
      else s
    case ErrorPopup => s
    case NavigationPopup => s
    case NoModule => s.(focused := Logs)
  }

  /** Within a popup the focus stays on that popup's own fields. */
  lemma PopupsKeepFieldRange(s: Focus, k: Key)
    ensures s.focused == SourcePopup && INDEX_SOURCE_TYPE <= s.inputIndex <= INDEX_SOURCE_OK_BUTTON ==>
      Navigate(s, k).focused == SourcePopup && INDEX_SOURCE_TYPE <= Navigate(s, k).inputIndex <= INDEX_SOURCE_OK_BUTTON
    ensures s.focused == FilterPopup && INDEX_FILTER_NAME <= s.inputIndex <= INDEX_FILTER_OK_BUTTON ==>
      Navigate(s, k).focused == FilterPopup && INDEX_FILTER_NAME <= Navigate(s, k).inputIndex <= INDEX_FILTER_OK_BUTTON
  {
  }

  /** From the main panels, left and right reach the side panels exactly when the side panel is visible. */
  lemma SidePanelReachable(s: Focus, k: Key)
    requires s.focused in {Logs, Search, SearchResult} && (k == Left || k == Right)
    ensures Navigate(s, k).focused in {Sources, Filters} <==> s.sidePercentage > 0
    ensures s.sidePercentage == 0 ==> Navigate(s, k) == s
  {
  }

  /** Without a focused panel any key focuses the log panel. */
  lemma NoFocusGoesToLogs(s: Focus, k: Key)
    requires s.focused == NoModule
    ensures Navigate(s, k).focused == Logs
  {
  }

  /** Up and down go round the three main panels in opposite directions. */
  lemma UpDownInverse(s: Focus)
    requires s.focused in {Logs, Search, SearchResult}
    ensures Navigate(Navigate(s, Up), Down) == s
    ensures Navigate(Navigate(s, Down), Up) == s
    ensures Navigate(Navigate(Navigate(s, Up), Up), Up) == s
  {
  }
}
