/**
 * Pure pieces of the log panel rendering (`ui/ui_log_analyzer.rs`): the
 * colour-name table used for search highlights, the style of a highlighted
 * segment, the horizontal scroll offset carried across segments, the
 * progress gauges and the split of the main panel's height.
 */
module LogAnalyzerUi {
  import opened Wrappers
  import opened LogLines

  datatype Color =
    | Black | White | Red | Green | Yellow | Blue | Magenta | Cyan
    | Gray | DarkGray | LightRed | LightGreen | LightYellow | LightBlue | LightMagenta | LightCyan

  /** The three accepted spellings of a colour name: upper case, camel case and lower case. */
  function Spellings(c: Color): (names: seq<string>)
    ensures |names| == 3
  {
    match c
    case Black => ["BLACK", "Black", "black"]
    case White => ["WHITE", "White", "white"]
    case Red => ["RED", "Red", "red"]
    case Green => ["GREEN", "Green", "green"]
    case Yellow => ["YELLOW", "Yellow", "yellow"]
    case Blue => ["BLUE", "Blue", "blue"]
    case Magenta => ["MAGENTA", "Magenta", "magenta"]
    case Cyan => ["CYAN", "Cyan", "cyan"]
    case Gray => ["GRAY", "Gray", "gray"]
    case DarkGray => ["DARKGRAY", "DarkGray", "darkgray"]
    case LightRed => ["LIGHTRED", "LightRed", "lightred"]
    case LightGreen => ["LIGHTGREEN", "LightGreen", "lightgreen"]
    case LightYellow => ["LIGHTYELLOW", "LightYellow", "lightyellow"]
    case LightBlue => ["LIGHTBLUE", "LightBlue", "lightblue"]
    case LightMagenta => ["LIGHTMAGENTA", "LightMagenta", "lightmagenta"]
    case LightCyan => ["LIGHTCYAN", "LightCyan", "lightcyan"]
  }

  /**
   * `Color::from_str`: the arms of the name table. A text matches an arm only
   * if it has the arm's length, so the arms are grouped by name length, in
   * table order within a group.
   */
  function ColorFromStr(s: string): (r: Option<Color>)
    ensures r.Some? ==> s in Spellings(r.value)
  {
    if |s| == 3 then
      if s in Spellings(Red) then Some(Red)
      else None
    else if |s| == 4 then
      if s in Spellings(Blue) then Some(Blue)
      else if s in Spellings(Cyan) then Some(Cyan)
      else if s in Spellings(Gray) then Some(Gray)
      else None
    else if |s| == 5 then
      if s in Spellings(Black) then Some(Black)
      else if s in Spellings(White) then Some(White)
      else if s in Spellings(Green) then Some(Green)
      else None
    else if |s| == 6 then
      if s in Spellings(Yellow) then Some(Yellow)
      else None
    else if |s| == 7 then
      if s in Spellings(Magenta) then Some(Magenta)
      else None
    else if |s| == 8 then
      if s in Spellings(DarkGray) then Some(DarkGray)
      else if s in Spellings(LightRed) then Some(LightRed)
      else None
    else if |s| == 9 then
      if s in Spellings(LightBlue) then Some(LightBlue)
      else if s in Spellings(LightCyan) then Some(LightCyan)
      else None
    else if |s| == 10 then
      if s in Spellings(LightGreen) then Some(LightGreen)
      else None
    else if |s| == 11 then
      if s in Spellings(LightYellow) then Some(LightYellow)
      else None
    else if |s| == 12 then
      if s in Spellings(LightMagenta) then Some(LightMagenta)
      else None
    else None
  }

  /** Every spelling of a colour names that colour, so no spelling is shared by two colours. */
  lemma SpellingsName(c: Color, i: nat)
    requires i < 3
    ensures ColorFromStr(Spellings(c)[i]) == Some(c)
  {
    if c == Black || c == White || c == Red || c == Green {
      SpellingsNameRows1To4(c, i);
    } else if c == Yellow || c == Blue || c == Magenta || c == Cyan {
      SpellingsNameRows5To8(c, i);
    } else if c == Gray || c == DarkGray || c == LightRed || c == LightGreen {
      SpellingsNameRows9To12(c, i);
    } else {
      SpellingsNameRows13To16(c, i);
    }
  }

  /** Rows 1 to 4 of the name table. */
  lemma SpellingsNameRows1To4(c: Color, i: nat)
    requires i < 3 && (c == Black || c == White || c == Red || c == Green)
    ensures ColorFromStr(Spellings(c)[i]) == Some(c)
  {
    if c == Black {
      assert ColorFromStr(Spellings(Black)[i]) == Some(Black);
    } else if c == White {
      assert ColorFromStr(Spellings(White)[i]) == Some(White);
    } else if c == Red {
      assert ColorFromStr(Spellings(Red)[i]) == Some(Red);
    } else {
      assert ColorFromStr(Spellings(Green)[i]) == Some(Green);
    }
  }

  /** Rows 5 to 8 of the name table. */
  lemma SpellingsNameRows5To8(c: Color, i: nat)
    requires i < 3 && (c == Yellow || c == Blue || c == Magenta || c == Cyan)
    ensures ColorFromStr(Spellings(c)[i]) == Some(c)
  {
    if c == Yellow {
      assert ColorFromStr(Spellings(Yellow)[i]) == Some(Yellow);
    } else if c == Blue {
      assert ColorFromStr(Spellings(Blue)[i]) == Some(Blue);
    } else if c == Magenta {
      assert ColorFromStr(Spellings(Magenta)[i]) == Some(Magenta);
    } else {
      assert ColorFromStr(Spellings(Cyan)[i]) == Some(Cyan);
    }
  }

  /** Rows 9 to 12 of the name table. */
  lemma SpellingsNameRows9To12(c: Color, i: nat)
    requires i < 3 && (c == Gray || c == DarkGray || c == LightRed || c == LightGreen)
    ensures ColorFromStr(Spellings(c)[i]) == Some(c)
  {
    if c == Gray {
      assert ColorFromStr(Spellings(Gray)[i]) == Some(Gray);
    } else if c == DarkGray {
      assert ColorFromStr(Spellings(DarkGray)[i]) == Some(DarkGray);
    } else if c == LightRed {
      assert ColorFromStr(Spellings(LightRed)[i]) == Some(LightRed);
    } else {
      assert ColorFromStr(Spellings(LightGreen)[i]) == Some(LightGreen);
    }
  }

  /** Rows 13 to 16 of the name table. */
  lemma SpellingsNameRows13To16(c: Color, i: nat)
    requires i < 3 && (c == LightYellow || c == LightBlue || c == LightMagenta || c == LightCyan)
    ensures ColorFromStr(Spellings(c)[i]) == Some(c)
  {
    if c == LightYellow {
      assert ColorFromStr(Spellings(LightYellow)[i]) == Some(LightYellow);
    } else if c == LightBlue {
      assert ColorFromStr(Spellings(LightBlue)[i]) == Some(LightBlue);
    } else if c == LightMagenta {
      assert ColorFromStr(Spellings(LightMagenta)[i]) == Some(LightMagenta);
    } else {
      assert ColorFromStr(Spellings(LightCyan)[i]) == Some(LightCyan);
    }
  }

  /** A text names a colour exactly when it is one of that colour's spellings. */
  lemma ColorFromStrExact(s: string, c: Color)
    ensures ColorFromStr(s) == Some(c) <==> s in Spellings(c)
  {
    if s in Spellings(c) {
      var i :| 0 <= i < 3 && Spellings(c)[i] == s;
      SpellingsName(c, i);
    }
  }

  /** A text is rejected exactly when it is no spelling of any colour. */
  lemma ColorFromStrRejects(s: string)
    ensures ColorFromStr(s) == None <==> forall c :: s !in Spellings(c)
  {
    if ColorFromStr(s) == None {
      forall c ensures s !in Spellings(c) {
        ColorFromStrExact(s, c);
      }
    }
  }

  /** Other capitalisations are not names. */
  lemma MixedCaseIsNoColor()
    ensures ColorFromStr("rEd") == None
    ensures ColorFromStr("Darkgray") == None
    ensures ColorFromStr("") == None
  {
  }

  /** A foreground colour: a named one or the line's filter colour. */
  datatype Foreground = Named(c: Color) | FromRgb(rgb: Rgb)

  datatype Style = Style(fg: Option<Foreground>, bold: bool)

  /**
   * The style of one segment of a search result as written: a highlight
   * that names a colour is drawn in that colour and bold; otherwise the
   * line's filter colour, if any. The bold modifier meant for every
   * highlighted segment is computed and discarded, so it never applies.
   */
  function SegmentStyleAsWritten(lineColor: Option<Rgb>, highlight: Option<string>): (st: Style)
    ensures highlight.Some? && ColorFromStr(highlight.value).Some? ==> st == Style(Some(Named(ColorFromStr(highlight.value).value)), true)
    ensures (highlight.None? || ColorFromStr(highlight.value).None?) ==>
      st == Style(if lineColor.Some? then Some(FromRgb(lineColor.value)) else None, false)
  {
    var style :=
      if highlight.Some? && ColorFromStr(highlight.value).Some? then Style(Some(Named(ColorFromStr(highlight.value).value)), true)
      else if lineColor.Some? then Style(Some(FromRgb(lineColor.value)), false)
      else Style(None, false);
    style
  }

  /** A highlight that is not a colour name is drawn without bold by the code as written. */
  lemma UnnamedHighlightNotBold()
    ensures !SegmentStyleAsWritten(None, Some("match")).bold
  {
    assert ColorFromStr("match") == None;
  }

  /** The segment style as evidently intended: every highlighted segment is bold. */
  function SegmentStyle(lineColor: Option<Rgb>, highlight: Option<string>): (st: Style)
    ensures st.bold <==> highlight.Some?
    ensures st.fg == SegmentStyleAsWritten(lineColor, highlight).fg
  {
    var style := SegmentStyleAsWritten(lineColor, highlight);
    if highlight.Some? then style.(bold := true) else style
  }

  datatype Span = Span(text: string, highlight: Option<string>)

  function Flatten(spans: seq<Span>): string {
    if |spans| == 0 then "" else spans[0].text + Flatten(spans[1..])
  }

  /**
   * The horizontal scroll of a search result cell: each segment is cut at
   * the remaining offset (`content.get(offset..)`); a segment shorter than
   * the offset is skipped, and the offset shrinks by the segment's length,
   * never below zero.
   */
  function ConsumeOffset(segments: seq<Span>, offset: nat): (r: seq<Span>)
    ensures |r| <= |segments|
  {
    if |segments| == 0 then []
    else
      var seg := segments[0];
      var rest := ConsumeOffset(segments[1..], if offset >= |seg.text| then offset - |seg.text| else 0);
      if offset <= |seg.text| then [Span(seg.text[offset..], seg.highlight)] + rest else rest
  }

  /** The visible text is the cell's whole text with its first `offset` characters cut off. */
  lemma {:induction false} ConsumeOffsetDropsPrefix(segments: seq<Span>, offset: nat)
    ensures Flatten(ConsumeOffset(segments, offset)) == Flatten(segments)[if offset <= |Flatten(segments)| then offset else |Flatten(segments)|..]
  {
    if |segments| > 0 {
      var seg := segments[0];
      var next := if offset >= |seg.text| then offset - |seg.text| else 0;
      ConsumeOffsetDropsPrefix(segments[1..], next);
      var tail := Flatten(segments[1..]);
      assert Flatten(segments) == seg.text + tail;
      if offset <= |seg.text| {
        var r := ConsumeOffset(segments, offset);
        assert r == [Span(seg.text[offset..], seg.highlight)] + ConsumeOffset(segments[1..], next);
        assert r[1..] == ConsumeOffset(segments[1..], next);
        assert next == 0;
        assert (seg.text + tail)[offset..] == seg.text[offset..] + tail;
      } else {
        assert (seg.text + tail)[if offset <= |seg.text + tail| then offset else |seg.text + tail|..]
            == tail[if next <= |tail| then next else |tail|..];
      }
    }
  }

  /**
   * The gauge of the bottom bar: the share of `part` in `total` in whole
   * percent, 0 when there is nothing yet, truncated to `u16`.
   */
  function GaugePercent(part: nat, total: nat): (p: nat)
    ensures total == 0 ==> p == 0
    ensures part <= total ==> p <= 100
    ensures 0 < total && part <= total ==> p * total <= part * 100 < (p + 1) * total
  {
    if total > 0 then
      PercentBounds(part, total);
      part * 100 / total % 0x1_0000
    else 0
  }

  /** The share in percent, before and after the `u16` truncation. */
  lemma PercentBounds(part: nat, total: nat)
    requires total > 0
    ensures var q := part * 100 / total;
      && q * total <= part * 100 < (q + 1) * total
      && (part <= total ==> q <= 100 && q % 0x1_0000 == q)
  {
    DivisionBounds(part * 100, total, 100);
  }

  /** Integer division by a positive divisor, bracketed, and bounded when the dividend is. */
  lemma DivisionBounds(x: nat, d: nat, bound: nat)
    requires d > 0
    ensures (x / d) * d <= x < (x / d + 1) * d
    ensures x <= bound * d ==> x / d <= bound
  {
    var q := x / d;
    assert x == q * d + x % d;
  }

  /**
   * The main panel's split: three rows go to the search box and the rest is
   * shared between the log and the search result in the configured
   * percentage. The `u16` subtraction and the two `u16` products panic on
   * underflow or overflow, hence the requirements.
   */
  function PanelSplit(height: nat, percentage: nat): (r: (nat, nat))
    requires 3 <= height && percentage <= 100
    requires (height - 3) * percentage <= 0xFFFF && (height - 3) * (100 - percentage) <= 0xFFFF
    ensures r.0 + r.1 <= height - 3
    ensures height - 3 <= r.0 + r.1 + 1
  {
    var expandable := height - 3;
    var a := expandable * percentage;
    var b := expandable * (100 - percentage);
    assert a + b == expandable * 100;
    SplitDivision(a, b, expandable);
    (a / 100, b / 100)
  }

  lemma SplitDivision(a: nat, b: nat, e: nat)
    requires a + b == e * 100
    ensures e <= a / 100 + b / 100 + 1
    ensures a / 100 + b / 100 <= e
  {
    assert a == (a / 100) * 100 + a % 100;
    assert b == (b / 100) * 100 + b % 100;
  }
}
