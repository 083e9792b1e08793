/** Values shared by the server's renderer and the client's display: colours,
    styles, terminal cells and their double-width pairs. */
module Display {

  datatype Option<+T> = None | Some(value: T)

  type Byte = b: int | 0 <= b < 256

  // ---------------------------------------------------------------- styles

  /** The text mode of a colour; `Unset` is the empty string and `Unknown` is any
      string the encoder refuses. */
  datatype ColorMode = Unset | Default | Indexed | Rgb | Unknown

  datatype Color = Color(mode: ColorMode, index: nat, r: nat, g: nat, b: nat)

  datatype Style = Style(
    bold: bool, dim: bool, blink: bool, italic: bool,
    underline: bool, reverse: bool, invisible: bool,
    fg: Color, bg: Color)

  const DEFAULT_COLOR := Color(Default, 0, 0, 0, 0)
  const DEFAULT_STYLE := Style(false, false, false, false, false, false, false, DEFAULT_COLOR, DEFAULT_COLOR)
  const DEFAULT_STYLE_ID: nat := 0
  const MAX_STYLES: nat := 4096
  const MAX_GRID: nat := 1024

  function NormalizedColor(color: Color): Color {
    if color.mode == Unset then color.(mode := Default) else color
  }

  function CanonicalStyle(style: Style): Style {
    style.(fg := NormalizedColor(style.fg), bg := NormalizedColor(style.bg))
  }

  function EffectiveBlankBackground(style: Style): Color {
    if style.reverse then style.fg else style.bg
  }

  /** Two styles paint a blank alike: both are free of underline and share the
      background a blank shows. */
  predicate BlankStylesEquivalent(left: Style, right: Style) {
    || left == right
    || (&& !left.underline
        && !right.underline
        && NormalizedColor(EffectiveBlankBackground(left)) == NormalizedColor(EffectiveBlankBackground(right)))
  }

  // -------------------------------------------------------------- appearance

  /** What a screen paints with: its two default colours, its palette, or a colour
      given outright. */
  datatype Ink = DefaultForeground | DefaultBackground | Palette(index: nat) | Direct(r: nat, g: nat, b: nat)

  function InkOf(color: Color, own: Ink): Ink {
    match color.mode
    case Indexed => Palette(color.index)
    case Rgb => Direct(color.r, color.g, color.b)
    case _ => own
  }

  /** What is drawn over the ground of a character. */
  datatype Mark = Mark(text: Text, ink: Ink, bold: bool, dim: bool, blink: bool, italic: bool, underline: bool, invisible: bool)

  /** How a character looks: the ground it stands on and what is drawn there. */
  datatype Look = Look(ground: Ink, mark: Option<Mark>)

  /** Text in a style. Reverse exchanges the two colours, and a space draws nothing
      unless it is underlined. */
  function LookOf(text: Text, style: Style): Look {
    var front, back := InkOf(style.fg, DefaultForeground), InkOf(style.bg, DefaultBackground);
    var ink, ground := if style.reverse then back else front, if style.reverse then front else back;
    Look(ground,
         if text == [SPACE] && !style.underline then None
         else Some(Mark(text, ink, style.bold, style.dim, style.blink, style.italic, style.underline, style.invisible)))
  }

  function SpaceLook(style: Style): Look { LookOf([SPACE], style) }

  /** Two plain grounds, one the default foreground, the other the default background. */
  predicate DefaultsMixed(a: Look, b: Look) {
    && a.mark.None? && b.mark.None?
    && (|| (a.ground == DefaultForeground && b.ground == DefaultBackground)
        || (a.ground == DefaultBackground && b.ground == DefaultForeground))
  }

  /** A colour without anything in the fields its mode leaves unused. */
  predicate PureColor(color: Color) {
    match color.mode
    case Indexed => color.r == color.g == color.b == 0
    case Rgb => color.index == 0
    case Unknown => false
    case _ => color.index == color.r == color.g == color.b == 0
  }

  predicate PureStyle(style: Style) { PureColor(style.fg) && PureColor(style.bg) }

  /** Styles taken for each other on a blank make a space look the same, exactly unless
      their grounds are the two different defaults. Of pure styles that are not both
      underlined, the styles taken for each other are exactly those and these. */
  lemma {:induction false} EquivalentLooks(a: Style, b: Style)
    ensures BlankStylesEquivalent(a, b) ==> (SpaceLook(a) == SpaceLook(b) <==> !DefaultsMixed(SpaceLook(a), SpaceLook(b)))
    ensures PureStyle(a) && PureStyle(b) && !(a.underline && b.underline) ==>
              (BlankStylesEquivalent(a, b) <==> SpaceLook(a) == SpaceLook(b) || DefaultsMixed(SpaceLook(a), SpaceLook(b)))
    ensures a.underline && b.underline ==> (BlankStylesEquivalent(a, b) <==> a == b)
  {
  }

  /** The canonical form of a style looks the same, and is the same for every style
      that differs from it only in leaving the default colours unsaid. */
  lemma {:induction false} CanonicalLooks(text: Text, style: Style)
    ensures LookOf(text, CanonicalStyle(style)) == LookOf(text, style)
    ensures CanonicalStyle(CanonicalStyle(style)) == CanonicalStyle(style)
    ensures BlankStylesEquivalent(style, CanonicalStyle(style)) || style.underline
    ensures style.fg.mode != Unset && style.bg.mode != Unset ==> CanonicalStyle(style) == style
  {
  }

  /** Which two styles those are: one reversed, one not, both showing a default colour. */
  lemma {:induction false} MixedStyles(a: Style, b: Style)
    ensures DefaultsMixed(SpaceLook(a), SpaceLook(b)) <==>
              && !a.underline && !b.underline && a.reverse != b.reverse
              && (if a.reverse then a.fg else a.bg).mode !in {Indexed, Rgb}
              && (if b.reverse then b.fg else b.bg).mode !in {Indexed, Rgb}
  {
  }

  /** A default blank and a reversed one are taken for each other; on a screen they
      are alike only when its two default colours are. */
  lemma {:induction false} ReversedDefaultMixed(tint: Ink -> nat)
    ensures var plain, reversed := DEFAULT_STYLE, DEFAULT_STYLE.(reverse := true);
            && BlankStylesEquivalent(plain, reversed) && SpaceLook(plain) != SpaceLook(reversed)
            && (tint(SpaceLook(plain).ground) == tint(SpaceLook(reversed).ground) <==> tint(DefaultForeground) == tint(DefaultBackground))
  {
  }

  // ----------------------------------------------------------------- cells

  /** Unicode scalar values; decoded text never holds anything else. */
  type Rune = r: int | 0 <= r <= 0x10FFFF && !(0xD800 <= r <= 0xDFFF) witness 32

  const SPACE: Rune := 32

  type Text = seq<Rune>

  /** UTF-8 lengths. */
  function RuneLen(r: Rune): nat {
    if r < 0x80 then 1 else if r < 0x800 then 2 else if r < 0x10000 then 3 else 4
  }

  function TextBytes(text: Text): nat
    decreases |text|
  {
    if text == [] then 0 else TextBytes(text[..|text| - 1]) + RuneLen(text[|text| - 1])
  }

  datatype Glyph = Blank | Scalar(r: Rune) | Cluster(text: Text) | Continuation

  /** What one terminal cell holds; `width` is 0 exactly on the right half of a
      double-width pair. */
  datatype Cell = Cell(glyph: Glyph, width: nat, style: Style)

  const DEFAULT_BLANK := Cell(Blank, 1, DEFAULT_STYLE)

  /** Text takes one or two columns; a space is never double-width. */
  predicate ValidCell(cell: Cell) {
    match cell.glyph
    case Blank => cell.width == 1
    case Scalar(r) => cell.width == 1 || (cell.width == 2 && r != SPACE)
    case Cluster(text) => cell.width == 1 || (cell.width == 2 && text != [SPACE])
    case Continuation => cell.width == 0
  }

  /** Every wide cell is followed by its continuation and every continuation is
      preceded by its wide cell, inside the slice itself. */
  ghost predicate PairedWidths(widths: seq<nat>) {
    && (forall i :: 0 <= i < |widths| ==> widths[i] <= 2)
    && (forall i :: 0 <= i < |widths| && widths[i] == 2 ==> i + 1 < |widths| && widths[i + 1] == 0)
    && (forall i :: 0 <= i < |widths| && widths[i] == 0 ==> 0 < i && widths[i - 1] == 2)
  }

  function CellWidths(row: seq<Cell>): (widths: seq<nat>)
    ensures |widths| == |row|
    ensures forall i :: 0 <= i < |row| ==> widths[i] == row[i].width
  {
    seq(|row|, i requires 0 <= i < |row| => row[i].width)
  }

  ghost predicate ValidRow(row: seq<Cell>) {
    && (forall i :: 0 <= i < |row| ==> ValidCell(row[i]))
    && PairedWidths(CellWidths(row))
  }

  type Grid = seq<seq<Cell>>

  ghost predicate ValidGrid(grid: Grid, rows: nat, cols: nat) {
    && |grid| == rows
    && (forall r :: 0 <= r < rows ==> |grid[r]| == cols && ValidRow(grid[r]))
  }

  ghost predicate Sized<T>(grid: seq<seq<T>>, rows: int, cols: int) {
    |grid| == rows && forall r :: 0 <= r < |grid| ==> |grid[r]| == cols
  }

  // --------------------------------------------------------------- cursors

  datatype Cursor = Cursor(x: int, y: int)
  datatype CursorUpdate = CursorUpdate(cursor: Cursor, visible: bool)

  // --------------------------------------------------------------- scrolls

  datatype ScrollRegion = ScrollRegion(top: int, bottom: int, delta: int)

  /** The region every scroll consumer accepts: inside the grid, not empty, and
      moved by at most its own height. */
  predicate LegalScroll(region: ScrollRegion, rows: int) {
    && 0 <= region.top < region.bottom <= rows
    && region.delta != 0
    && -(region.bottom - region.top) <= region.delta <= region.bottom - region.top
  }

  /** The row a scrolled row comes from, or none when the scroll exposed it. */
  function ScrollSource(region: ScrollRegion, row: int): (source: Option<int>)
    ensures source.Some? ==>
              source.value == (if region.top <= row < region.bottom then row - region.delta else row)
    ensures source.None? <==>
            region.top <= row < region.bottom && !(region.top <= row - region.delta < region.bottom)
  {
    if region.top <= row < region.bottom then
      if region.top <= row - region.delta < region.bottom then Some(row - region.delta) else None
    else Some(row)
  }

  function BlankRow<T>(blank: T, cols: nat): (row: seq<T>)
    ensures |row| == cols
    ensures forall c :: 0 <= c < cols ==> row[c] == blank
  {
    seq(cols, _ => blank)
  }

  /** A whole grid after a scroll, with blanks on the exposed rows. */
  function Scrolled<T>(grid: seq<seq<T>>, region: Option<ScrollRegion>, blank: T, cols: nat): (out: seq<seq<T>>)
    requires region.Some? ==> 0 <= region.value.top && region.value.bottom <= |grid|
    ensures |out| == |grid|
    ensures region.None? ==> out == grid
    ensures forall r :: 0 <= r < |grid| && region.Some? ==>
              out[r] == (match ScrollSource(region.value, r)
                         case Some(source) => grid[source]
                         case None => BlankRow(blank, cols))
  {
    match region
    case None => grid
    case Some(value) =>
      seq(|grid|, r requires 0 <= r < |grid| =>
        match ScrollSource(value, r)
        case Some(source) => grid[source]
        case None => BlankRow(blank, cols))
  }
}
