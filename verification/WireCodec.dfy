/** The byte form of display commands and render frame headers. Text is bytes here;
    which bytes are UTF-8 is given. */
module WireCodec {
  import opened Display
  import opened DisplayInterpreter
  import FrameCompiler

  type Bytes = seq<Byte>
  type Valid = Bytes -> bool
  type WireCommand = Command<Bytes>

  const MAX_UINT64: nat := 0xFFFF_FFFF_FFFF_FFFF
  const MAX_UINT32: nat := 0xFFFF_FFFF
  const MAX_GRID_CELLS: nat := 1048576
  const MAX_TEXT: nat := 4194304
  const MAX_FRAME: nat := 4194304

  datatype ReadError = EndOfStream | Truncated | Malformed

  /** A value and the bytes after it, or why there is none. */
  datatype Parsed<+T> = Parsed(value: T, rest: Bytes) | Failed(error: ReadError)

  // -------------------------------------------------------------- concatenation

  lemma {:induction false} Join2(dst: Bytes, a: Bytes, b: Bytes)
    ensures dst + a + b == dst + (a + b)
  {
  }

  lemma {:induction false} Join3(dst: Bytes, a: Bytes, b: Bytes, c: Bytes)
    ensures dst + a + b + c == dst + (a + b + c)
  {
  }

  lemma {:induction false} Join4(dst: Bytes, a: Bytes, b: Bytes, c: Bytes, e: Bytes)
    ensures dst + a + b + c + e == dst + (a + b + c + e)
  {
    Join3(dst, a, b, c);
    Join2(dst, a + b + c, e);
  }

  lemma {:induction false} Body1(op: Byte, a: Bytes, rest: Bytes)
    ensures ([op] + a + rest)[0] == op && ([op] + a + rest)[1..] == a + rest
  {
  }

  lemma {:induction false} Body2(op: Byte, a: Bytes, b: Bytes, rest: Bytes)
    ensures ([op] + a + b + rest)[0] == op && ([op] + a + b + rest)[1..] == a + b + rest
  {
    Join2([op], a, b);
    Body1(op, a + b, rest);
  }

  lemma {:induction false} Body3(op: Byte, a: Bytes, b: Bytes, c: Bytes, rest: Bytes)
    ensures ([op] + a + b + c + rest)[0] == op && ([op] + a + b + c + rest)[1..] == a + b + c + rest
  {
    Join3([op], a, b, c);
    Body1(op, a + b + c, rest);
  }

  // ------------------------------------------------------------------ uvarints

  function UvarintBytes(value: nat): (bytes: Bytes)
    ensures |bytes| >= 1
  {
    if value < 128 then [value] else [128 + value % 128] + UvarintBytes(value / 128)
  }

  /** `appendUvarint`. */
  method AppendUvarint(dst: Bytes, value: nat) returns (out: Bytes)
    ensures out == dst + UvarintBytes(value)
  {
    out := dst;
    var left := value;
    while left >= 128
      invariant out + UvarintBytes(left) == dst + UvarintBytes(value)
    {
      out := out + [128 + left % 128];
      left := left / 128;
    }
    out := out + [left];
  }

  /** The tenth byte of an unsigned 64-bit value holds one bit. */
  function ReadUvarint(d: Bytes, index: nat): Parsed<nat>
    requires index < 10
    decreases 10 - index
  {
    if d == [] then Failed(Truncated)
    else if index == 9 && d[0] > 1 then Failed(Malformed)
    else if d[0] < 128 then Parsed(d[0], d[1..])
    else if index == 9 then Failed(Malformed)
    else match ReadUvarint(d[1..], index + 1)
      case Failed(error) => Failed(error)
      case Parsed(high, rest) => Parsed(d[0] - 128 + 128 * high, rest)
  }

  /** What fits in the bytes from `index` on. */
  function Room(index: nat): nat
    requires index < 10
    decreases 10 - index
  {
    if index == 9 then 2 else 128 * Room(index + 1)
  }

  lemma {:induction false} RoomIs64Bits()
    ensures Room(0) == MAX_UINT64 + 1
  {
    assert Room(9) == 2 && Room(8) == 256 && Room(7) == 32768 && Room(6) == 4194304;
    assert Room(5) == 536870912 && Room(4) == 68719476736 && Room(3) == 8796093022208;
    assert Room(2) == 1125899906842624 && Room(1) == 144115188075855872;
  }

  lemma {:induction false} HighPart(value: nat, index: nat)
    requires index < 10 && 128 <= value < Room(index)
    ensures index < 9 && value / 128 < Room(index + 1) && value / 128 < value
    ensures value == 128 * (value / 128) + value % 128
  {
  }

  lemma {:induction false} UvarintRoundTrip(value: nat, rest: Bytes, index: nat)
    requires index < 10 && value < Room(index)
    ensures ReadUvarint(UvarintBytes(value) + rest, index) == Parsed(value, rest)
    decreases value
  {
    var bytes := UvarintBytes(value) + rest;
    if value < 128 {
      assert bytes[1..] == rest;
    } else {
      HighPart(value, index);
      var high := value / 128;
      hide Room;
      UvarintRoundTrip(high, rest, index + 1);
      assert bytes == [128 + value % 128] + (UvarintBytes(high) + rest);
      assert bytes[1..] == UvarintBytes(high) + rest;
    }
  }

  lemma {:induction false} Uvarint64(value: nat, rest: Bytes)
    requires value <= MAX_UINT64
    ensures ReadUvarint(UvarintBytes(value) + rest, 0) == Parsed(value, rest)
  {
    RoomIs64Bits();
    UvarintRoundTrip(value, rest, 0);
  }

  /** The number seven-bit digits stand for, low ones first. */
  function DigitValue(bytes: Bytes): nat {
    if bytes == [] then 0 else bytes[0] % 128 + 128 * DigitValue(bytes[1..])
  }

  /** A value's bytes are its digits, each marked but the last, and no digit too many. */
  lemma {:induction false} UvarintDigits(value: nat)
    ensures var bytes := UvarintBytes(value);
            && DigitValue(bytes) == value
            && (forall i :: 0 <= i < |bytes| - 1 ==> bytes[i] >= 128)
            && bytes[|bytes| - 1] < 128 && (|bytes| > 1 ==> bytes[|bytes| - 1] > 0)
    decreases value
  {
    if value >= 128 {
      var high := UvarintBytes(value / 128);
      UvarintDigits(value / 128);
      var bytes := UvarintBytes(value);
      assert bytes == [128 + value % 128] + high && bytes[1..] == high;
      assert (128 + value % 128) % 128 == value % 128;
    } else {
      assert DigitValue([value][1..]) == 0;
    }
  }

  // -------------------------------------------------------------------- zig-zag

  function ZigZag(value: int): nat {
    if value >= 0 then 2 * value else -2 * value - 1
  }

  function UnZigZag(value: nat): int {
    if value % 2 == 0 then value / 2 else -(value / 2) - 1
  }

  lemma {:induction false} ZigZagRoundTrip(value: int, code: nat)
    ensures UnZigZag(ZigZag(value)) == value && ZigZag(UnZigZag(code)) == code
  {
  }

  // --------------------------------------------------------------- style fields

  function Bit(on: bool, flag: nat): nat { if on then flag else 0 }

  const BOLD: nat := 1
  const DIM: nat := 2
  const ITALIC: nat := 4
  const UNDERLINE: nat := 8
  const REVERSE: nat := 16
  const BLINK: nat := 32
  const INVISIBLE: nat := 64

  function StyleFlags(s: Style): (flags: nat)
    ensures flags < 128
  {
    Bit(s.bold, BOLD) + Bit(s.dim, DIM) + Bit(s.italic, ITALIC) + Bit(s.underline, UNDERLINE)
    + Bit(s.reverse, REVERSE) + Bit(s.blink, BLINK) + Bit(s.invisible, INVISIBLE)
  }

  predicate HasFlag(flags: nat, flag: nat)
    requires flag > 0
  {
    flags / flag % 2 == 1
  }

  lemma {:induction false} FlagsRead(s: Style)
    ensures var f := StyleFlags(s);
            && HasFlag(f, BOLD) == s.bold && HasFlag(f, DIM) == s.dim && HasFlag(f, ITALIC) == s.italic
            && HasFlag(f, UNDERLINE) == s.underline && HasFlag(f, REVERSE) == s.reverse
            && HasFlag(f, BLINK) == s.blink && HasFlag(f, INVISIBLE) == s.invisible
  {
  }

  /** A colour the wire can carry: a known mode, and components of a byte. */
  predicate ByteColor(c: Color) {
    match c.mode
    case Unknown => false
    case Indexed => c.index < 256
    case Rgb => c.r < 256 && c.g < 256 && c.b < 256
    case _ => true
  }

  function ColorBytes(c: Color): Bytes
    requires ByteColor(c)
  {
    match c.mode
    case Indexed => [1, c.index]
    case Rgb => [2, c.r, c.g, c.b]
    case _ => [0]
  }

  /** What is left of a colour on the other side: the empty mode is the default one,
      and unused components are gone. */
  function WireColor(c: Color): Color {
    match c.mode
    case Indexed => Color(Indexed, c.index, 0, 0, 0)
    case Rgb => Color(Rgb, 0, c.r, c.g, c.b)
    case _ => DEFAULT_COLOR
  }

  function WireStyle(s: Style): Style {
    s.(fg := WireColor(s.fg), bg := WireColor(s.bg))
  }

  function ReadColor(d: Bytes): Parsed<Color> {
    if d == [] then Failed(Truncated)
    else if d[0] == 0 then Parsed(DEFAULT_COLOR, d[1..])
    else if d[0] == 1 then if |d| < 2 then Failed(Truncated) else Parsed(Color(Indexed, d[1], 0, 0, 0), d[2..])
    else if d[0] == 2 then if |d| < 4 then Failed(Truncated) else Parsed(Color(Rgb, 0, d[1], d[2], d[3]), d[4..])
    else Failed(Malformed)
  }

  lemma {:induction false} ColorRoundTrip(c: Color, rest: Bytes)
    requires ByteColor(c)
    ensures ReadColor(ColorBytes(c) + rest) == Parsed(WireColor(c), rest)
  {
    var d := ColorBytes(c) + rest;
    assert d[|ColorBytes(c)|..] == rest;
  }

  function StyleBytes(s: Style): Bytes
    requires ByteColor(s.fg) && ByteColor(s.bg)
  {
    UvarintBytes(StyleFlags(s)) + ColorBytes(s.fg) + ColorBytes(s.bg)
  }

  function StyleOf(flags: nat, fg: Color, bg: Color): Style {
    Style(HasFlag(flags, BOLD), HasFlag(flags, DIM), HasFlag(flags, BLINK), HasFlag(flags, ITALIC),
          HasFlag(flags, UNDERLINE), HasFlag(flags, REVERSE), HasFlag(flags, INVISIBLE), fg, bg)
  }

  function ReadStyle(d: Bytes): Parsed<Style> {
    match ReadUvarint(d, 0)
    case Failed(error) => Failed(error)
    case Parsed(flags, afterFlags) =>
      match ReadColor(afterFlags)
      case Failed(error) => Failed(error)
      case Parsed(fg, afterFg) =>
        match ReadColor(afterFg)
        case Failed(error) => Failed(error)
        case Parsed(bg, rest) => Parsed(StyleOf(flags, fg, bg), rest)
  }

  lemma {:induction false} StyleRoundTrip(s: Style, rest: Bytes)
    requires ByteColor(s.fg) && ByteColor(s.bg)
    ensures ReadStyle(StyleBytes(s) + rest) == Parsed(WireStyle(s), rest)
  {
    hide ReadUvarint, UvarintBytes, ReadColor, ColorBytes, StyleFlags;
    var flags := UvarintBytes(StyleFlags(s));
    assert StyleBytes(s) + rest == flags + (ColorBytes(s.fg) + (ColorBytes(s.bg) + rest));
    Uvarint64(StyleFlags(s), ColorBytes(s.fg) + (ColorBytes(s.bg) + rest));
    ColorRoundTrip(s.fg, ColorBytes(s.bg) + rest);
    ColorRoundTrip(s.bg, rest);
    FlagsRead(s);
  }

  // ---------------------------------------------------------------- small fields

  function ReadByte(d: Bytes): Parsed<Byte> {
    if d == [] then Failed(Truncated) else Parsed(d[0], d[1..])
  }

  function ReadCoord(d: Bytes, max: nat): Parsed<nat> {
    match ReadUvarint(d, 0)
    case Failed(error) => Failed(error)
    case Parsed(value, rest) => if value > max then Failed(Malformed) else Parsed(value, rest)
  }

  function TextBytesOf(text: Bytes): Bytes { UvarintBytes(|text|) + text }

  function ReadText(d: Bytes, valid: Valid): Parsed<Bytes> {
    match ReadUvarint(d, 0)
    case Failed(error) => Failed(error)
    case Parsed(n, rest) =>
      if n > MAX_TEXT then Failed(Malformed)
      else if n > |rest| then Failed(Truncated)
      else if !valid(rest[..n]) then Failed(Malformed)
      else Parsed(rest[..n], rest[n..])
  }

  lemma {:induction false} CoordRoundTrip(value: nat, max: nat, rest: Bytes)
    requires value <= max <= MAX_UINT64
    ensures ReadCoord(UvarintBytes(value) + rest, max) == Parsed(value, rest)
  {
    Uvarint64(value, rest);
  }

  lemma {:induction false} TextRoundTrip(text: Bytes, rest: Bytes, valid: Valid)
    requires |text| <= MAX_TEXT && valid(text)
    ensures ReadText(TextBytesOf(text) + rest, valid) == Parsed(text, rest)
  {
    Uvarint64(|text|, text + rest);
    assert TextBytesOf(text) + rest == UvarintBytes(|text|) + (text + rest);
    assert (text + rest)[..|text|] == text && (text + rest)[|text|..] == rest;
  }

  function Flag(on: bool): Byte { if on then 1 else 0 }

  // ------------------------------------------------------------------- commands

  const OP_START: Byte := 1
  const OP_STYLE: Byte := 2
  const OP_POSITION: Byte := 3
  const OP_PEN: Byte := 4
  const OP_TEXT: Byte := 5
  const OP_UTF8: Byte := 6
  const OP_UTF8_DEFAULT: Byte := 7
  const OP_FILL: Byte := 8
  const OP_CURSOR: Byte := 9
  const OP_SCROLL: Byte := 10
  const OP_CLUSTER: Byte := 11

  /** The encoder's own conditions. */
  predicate Accepted(c: WireCommand, valid: Valid) {
    match c
    case StartRender(_, cols, rows) => 0 < cols <= MAX_GRID && 0 < rows <= MAX_GRID
    case StyleInstall(_, style) => ByteColor(style.fg) && ByteColor(style.bg)
    case SetWritePosition(row, column) => 0 <= row && 0 <= column
    case SetWriteStyle(_) => true
    case WriteText(width, text) => (width == 1 || width == 2) && valid(text)
    case WriteTextUtf8(text) => valid(text)
    case WriteTextUtf8Default(text) => valid(text)
    case WriteCluster(width, text) => (width == 1 || width == 2) && text != [] && valid(text)
    case Fill(columns, _, width) => columns <= MAX_GRID_CELLS && ValidFill(columns, width)
    case UpdateCursor(update) => 0 <= update.cursor.x && 0 <= update.cursor.y
    case Scroll(region) => LegalScroll(region, MAX_GRID)
  }

  /** What the decoder asks beyond that: coordinates in the grid, text in a frame. */
  predicate InBounds(c: WireCommand) {
    match c
    case StartRender(revision, _, _) => revision <= MAX_UINT64
    case StyleInstall(id, _) => id <= MAX_UINT32
    case SetWritePosition(row, column) => row <= MAX_GRID && column <= MAX_GRID
    case SetWriteStyle(id) => id <= MAX_UINT32
    case WriteText(_, text) => |text| <= MAX_TEXT
    case WriteTextUtf8(text) => |text| <= MAX_TEXT
    case WriteTextUtf8Default(text) => |text| <= MAX_TEXT
    case WriteCluster(_, text) => |text| <= MAX_TEXT
    case UpdateCursor(update) => update.cursor.x <= MAX_GRID && update.cursor.y <= MAX_GRID
    case _ => true
  }

  function Encoded(c: WireCommand, valid: Valid): (bytes: Bytes)
    requires Accepted(c, valid)
    ensures |bytes| >= 1
  {
    match c
    case StartRender(revision, cols, rows) => [OP_START] + UvarintBytes(revision) + UvarintBytes(cols) + UvarintBytes(rows)
    case StyleInstall(id, style) => [OP_STYLE] + UvarintBytes(id) + StyleBytes(style)
    case SetWritePosition(row, column) => [OP_POSITION] + UvarintBytes(row) + UvarintBytes(column)
    case SetWriteStyle(id) => [OP_PEN] + UvarintBytes(id)
    case WriteText(width, text) => [OP_TEXT] + [width] + TextBytesOf(text)
    case WriteTextUtf8(text) => [OP_UTF8] + TextBytesOf(text)
    case WriteTextUtf8Default(text) => [OP_UTF8_DEFAULT] + TextBytesOf(text)
    case WriteCluster(width, text) => [OP_CLUSTER] + [width] + TextBytesOf(text)
    case Fill(columns, r, width) => [OP_FILL] + UvarintBytes(columns) + UvarintBytes(r) + [width]
    case UpdateCursor(update) => [OP_CURSOR] + UvarintBytes(update.cursor.x) + UvarintBytes(update.cursor.y) + [Flag(update.visible)]
    case Scroll(region) => [OP_SCROLL] + UvarintBytes(region.top) + UvarintBytes(region.bottom) + UvarintBytes(ZigZag(region.delta))
  }

  /** What comes out of the decoder: styles in their wire form. */
  function OnWire(c: WireCommand): WireCommand {
    match c
    case StyleInstall(id, style) => StyleInstall(id, WireStyle(style))
    case _ => c
  }

  function ReadStart(d: Bytes): Parsed<WireCommand> {
    match ReadUvarint(d, 0)
    case Failed(error) => Failed(error)
    case Parsed(revision, afterRevision) =>
      match ReadCoord(afterRevision, MAX_GRID)
      case Failed(error) => Failed(error)
      case Parsed(cols, afterCols) =>
        if cols == 0 then Failed(Malformed)
        else match ReadCoord(afterCols, MAX_GRID)
          case Failed(error) => Failed(error)
          case Parsed(rows, rest) => if rows == 0 then Failed(Malformed) else Parsed(StartRender(revision, cols, rows), rest)
  }

  function ReadStyleInstall(d: Bytes): Parsed<WireCommand> {
    match ReadCoord(d, MAX_UINT32)
    case Failed(error) => Failed(error)
    case Parsed(id, afterId) =>
      match ReadStyle(afterId)
      case Failed(error) => Failed(error)
      case Parsed(style, rest) => Parsed(StyleInstall(id, style), rest)
  }

  function ReadPosition(d: Bytes): Parsed<WireCommand> {
    match ReadCoord(d, MAX_GRID)
    case Failed(error) => Failed(error)
    case Parsed(row, afterRow) =>
      match ReadCoord(afterRow, MAX_GRID)
      case Failed(error) => Failed(error)
      case Parsed(column, rest) => Parsed(SetWritePosition(row, column), rest)
  }

  function ReadWidthText(d: Bytes, cluster: bool, valid: Valid): Parsed<WireCommand> {
    match ReadByte(d)
    case Failed(error) => Failed(error)
    case Parsed(width, afterWidth) =>
      if width != 1 && width != 2 then Failed(Malformed)
      else match ReadText(afterWidth, valid)
        case Failed(error) => Failed(error)
        case Parsed(text, rest) =>
          if !cluster then Parsed(WriteText(width, text), rest)
          else if text == [] then Failed(Malformed)
          else Parsed(WriteCluster(width, text), rest)
  }

  function ReadPlainText(d: Bytes, defaultStyle: bool, valid: Valid): Parsed<WireCommand> {
    match ReadText(d, valid)
    case Failed(error) => Failed(error)
    case Parsed(text, rest) => Parsed(if defaultStyle then WriteTextUtf8Default(text) else WriteTextUtf8(text), rest)
  }

  predicate ScalarValue(value: nat) { value <= 0x10FFFF && !(0xD800 <= value <= 0xDFFF) }

  function ReadFill(d: Bytes): Parsed<WireCommand> {
    match ReadCoord(d, MAX_GRID_CELLS)
    case Failed(error) => Failed(error)
    case Parsed(columns, afterColumns) =>
      if columns == 0 then Failed(Malformed)
      else match ReadUvarint(afterColumns, 0)
        case Failed(error) => Failed(error)
        case Parsed(r, afterRune) =>
          if !ScalarValue(r) then Failed(Malformed)
          else match ReadByte(afterRune)
            case Failed(error) => Failed(error)
            case Parsed(width, rest) =>
              if (width != 1 && width != 2) || columns % width != 0 then Failed(Malformed)
              else Parsed(Fill(columns, r, width), rest)
  }

  function ReadCursor(d: Bytes): Parsed<WireCommand> {
    match ReadCoord(d, MAX_GRID)
    case Failed(error) => Failed(error)
    case Parsed(x, afterX) =>
      match ReadCoord(afterX, MAX_GRID)
      case Failed(error) => Failed(error)
      case Parsed(y, afterY) =>
        match ReadByte(afterY)
        case Failed(error) => Failed(error)
        case Parsed(flag, rest) =>
          if flag > 1 then Failed(Malformed)
          else Parsed(UpdateCursor(CursorUpdate(Cursor(x, y), flag == 1)), rest)
  }

  function ReadScroll(d: Bytes): Parsed<WireCommand> {
    match ReadCoord(d, MAX_GRID)
    case Failed(error) => Failed(error)
    case Parsed(top, afterTop) =>
      match ReadCoord(afterTop, MAX_GRID)
      case Failed(error) => Failed(error)
      case Parsed(bottom, afterBottom) =>
        match ReadUvarint(afterBottom, 0)
        case Failed(error) => Failed(error)
        case Parsed(code, rest) =>
          var region := ScrollRegion(top, bottom, UnZigZag(code));
          if LegalScroll(region, MAX_GRID) then Parsed(Scroll(region), rest) else Failed(Malformed)
  }

  /** `ReadCommand`: a clean end of the stream only before an opcode. */
  function ReadCommand(d: Bytes, valid: Valid): Parsed<WireCommand> {
    if d == [] then Failed(EndOfStream)
    else
      var body := d[1..];
      if d[0] == OP_START then ReadStart(body)
      else if d[0] == OP_STYLE then ReadStyleInstall(body)
      else if d[0] == OP_POSITION then ReadPosition(body)
      else if d[0] == OP_PEN then
        (match ReadCoord(body, MAX_UINT32)
         case Failed(error) => Failed(error)
         case Parsed(id, rest) => Parsed(SetWriteStyle(id), rest))
      else if d[0] == OP_TEXT || d[0] == OP_CLUSTER then ReadWidthText(body, d[0] == OP_CLUSTER, valid)
      else if d[0] == OP_UTF8 || d[0] == OP_UTF8_DEFAULT then ReadPlainText(body, d[0] == OP_UTF8_DEFAULT, valid)
      else if d[0] == OP_FILL then ReadFill(body)
      else if d[0] == OP_CURSOR then ReadCursor(body)
      else if d[0] == OP_SCROLL then ReadScroll(body)
      else Failed(Malformed)
  }

  lemma {:induction false} OneDigit(value: nat)
    requires value < 128
    ensures UvarintBytes(value) == [value]
  {
  }

  /** Commands as they stand on the wire: opcode, fields in order, seven bits a byte. */
  lemma {:induction false} WireExamples(valid: Valid)
    ensures Encoded(StartRender(300, 80, 24), valid) == [1, 172, 2, 80, 24]
    ensures Encoded(SetWritePosition(3, 7), valid) == [3, 3, 7] && Encoded(SetWriteStyle(5), valid) == [4, 5]
    ensures Encoded(Fill(6, 120, 2), valid) == [8, 6, 120, 2]
    ensures Encoded(UpdateCursor(CursorUpdate(Cursor(4, 9), true)), valid) == [9, 4, 9, 1]
    ensures Encoded(Scroll(ScrollRegion(1, 9, -2)), valid) == [10, 1, 9, 3] && Encoded(Scroll(ScrollRegion(1, 9, 2)), valid) == [10, 1, 9, 4]
  {
    hide UvarintBytes;
    TwoDigits();
    OneDigit(80);
    OneDigit(24);
    OneDigit(3);
    OneDigit(7);
    OneDigit(5);
    OneDigit(6);
    OneDigit(120);
    OneDigit(4);
    OneDigit(9);
    OneDigit(1);
  }

  lemma {:induction false} TextExamples(valid: Valid)
    requires valid([97, 98]) && valid([97])
    ensures Encoded(WriteText(2, [97, 98]), valid) == [5, 2, 2, 97, 98]
    ensures Encoded(WriteTextUtf8([97]), valid) == [6, 1, 97] && Encoded(WriteTextUtf8Default([97]), valid) == [7, 1, 97]
    ensures Encoded(WriteCluster(1, [97]), valid) == [11, 1, 1, 97]
  {
    hide UvarintBytes;
    OneDigit(2);
    OneDigit(1);
  }

  lemma {:induction false} TwoDigits()
    ensures UvarintBytes(300) == [172, 2]
  {
    assert UvarintBytes(2) == [2];
    assert 300 / 128 == 2 && 300 % 128 == 44;
  }

  lemma {:induction false} StyleExamples()
    ensures StyleBytes(DEFAULT_STYLE) == [0, 0, 0]
    ensures StyleBytes(DEFAULT_STYLE.(bold := true, fg := Color(Indexed, 9, 0, 0, 0), bg := Color(Rgb, 0, 1, 2, 3))) == [1, 1, 9, 2, 1, 2, 3]
    ensures StyleFlags(DEFAULT_STYLE.(dim := true)) == 2 && StyleFlags(DEFAULT_STYLE.(italic := true)) == 4
    ensures StyleFlags(DEFAULT_STYLE.(underline := true)) == 8 && StyleFlags(DEFAULT_STYLE.(reverse := true)) == 16
    ensures StyleFlags(DEFAULT_STYLE.(blink := true)) == 32 && StyleFlags(DEFAULT_STYLE.(invisible := true)) == 64
  {
    assert UvarintBytes(0) == [0] && UvarintBytes(1) == [1];
  }

  /** The server's size estimates are the sizes on the wire. */
  lemma {:induction false} SizesAgree(value: nat)
    ensures |UvarintBytes(value)| == FrameCompiler.UvarintSize(value)
    decreases value
  {
    if value >= 128 {
      SizesAgree(value / 128);
    }
  }

  /** Starting anew, a fill is chosen exactly when it takes fewer bytes than the same
      cells as text, counting the style selection either would need. */
  lemma {:induction false} FillShorter(r: Rune, count: nat, id: nat, styleValid: bool, selected: nat, text: Bytes, valid: Valid)
    requires |text| == RuneLen(r) * count && valid(text) && 0 < count <= MAX_GRID_CELLS
    ensures var chosen := styleValid && selected == id;
            var opcode := FrameCompiler.OpcodeFor(1, id, styleValid, selected);
            var selection := if chosen then 0 else |Encoded(SetWriteStyle(id), valid)|;
            FrameCompiler.FillIsSmaller(FrameCompiler.NoPending, styleValid, selected, r, count, id) <==>
              |Encoded(Fill(count, r, 1), valid)| + selection
              < (if opcode.OpUtf8Default? then |Encoded(WriteTextUtf8Default(text), valid)| else |Encoded(WriteTextUtf8(text), valid)| + selection)
  {
    SizesAgree(count);
    SizesAgree(r);
    SizesAgree(id);
    SizesAgree(|text|);
    hide UvarintBytes;
  }

  // ----------------------------------------------------------------- round trip

  lemma {:induction false} StartRoundTrip(revision: nat, cols: nat, rows: nat, rest: Bytes)
    requires revision <= MAX_UINT64 && 0 < cols <= MAX_GRID && 0 < rows <= MAX_GRID
    ensures ReadStart(UvarintBytes(revision) + UvarintBytes(cols) + UvarintBytes(rows) + rest) == Parsed(StartRender(revision, cols, rows), rest)
  {
    hide UvarintBytes, ReadUvarint;
    assert UvarintBytes(revision) + UvarintBytes(cols) + UvarintBytes(rows) + rest
        == UvarintBytes(revision) + (UvarintBytes(cols) + (UvarintBytes(rows) + rest));
    Uvarint64(revision, UvarintBytes(cols) + (UvarintBytes(rows) + rest));
    Uvarint64(cols, UvarintBytes(rows) + rest);
    Uvarint64(rows, rest);
  }

  lemma {:induction false} StyleInstallRoundTrip(id: nat, style: Style, rest: Bytes)
    requires id <= MAX_UINT32 && ByteColor(style.fg) && ByteColor(style.bg)
    ensures ReadStyleInstall(UvarintBytes(id) + StyleBytes(style) + rest) == Parsed(StyleInstall(id, WireStyle(style)), rest)
  {
    hide UvarintBytes, ReadUvarint, StyleBytes, ReadStyle;
    assert UvarintBytes(id) + StyleBytes(style) + rest == UvarintBytes(id) + (StyleBytes(style) + rest);
    Uvarint64(id, StyleBytes(style) + rest);
    StyleRoundTrip(style, rest);
  }

  lemma {:induction false} PairRoundTrip(a: nat, b: nat, rest: Bytes)
    requires a <= MAX_GRID && b <= MAX_GRID
    ensures ReadCoord(UvarintBytes(a) + UvarintBytes(b) + rest, MAX_GRID) == Parsed(a, UvarintBytes(b) + rest)
    ensures ReadCoord(UvarintBytes(b) + rest, MAX_GRID) == Parsed(b, rest)
  {
    assert UvarintBytes(a) + UvarintBytes(b) + rest == UvarintBytes(a) + (UvarintBytes(b) + rest);
    CoordRoundTrip(a, MAX_GRID, UvarintBytes(b) + rest);
    CoordRoundTrip(b, MAX_GRID, rest);
  }

  lemma {:induction false} WidthTextRoundTrip(width: nat, text: Bytes, cluster: bool, valid: Valid, rest: Bytes)
    requires (width == 1 || width == 2) && |text| <= MAX_TEXT && valid(text) && (cluster ==> text != [])
    ensures ReadWidthText([width] + TextBytesOf(text) + rest, cluster, valid)
            == Parsed(if cluster then WriteCluster(width, text) else WriteText(width, text), rest)
  {
    hide ReadText, TextBytesOf;
    var d := [width] + TextBytesOf(text) + rest;
    assert d[1..] == TextBytesOf(text) + rest;
    TextRoundTrip(text, rest, valid);
  }

  lemma {:induction false} FillRoundTrip(columns: nat, r: Rune, width: nat, rest: Bytes)
    requires columns <= MAX_GRID_CELLS && ValidFill(columns, width)
    ensures ReadFill(UvarintBytes(columns) + UvarintBytes(r) + [width] + rest) == Parsed(Fill(columns, r, width), rest)
  {
    hide UvarintBytes, ReadUvarint;
    assert UvarintBytes(columns) + UvarintBytes(r) + [width] + rest == UvarintBytes(columns) + (UvarintBytes(r) + ([width] + rest));
    Uvarint64(columns, UvarintBytes(r) + ([width] + rest));
    Uvarint64(r, [width] + rest);
    assert ([width] + rest)[1..] == rest;
  }

  lemma {:induction false} CursorRoundTrip(update: CursorUpdate, rest: Bytes)
    requires 0 <= update.cursor.x <= MAX_GRID && 0 <= update.cursor.y <= MAX_GRID
    ensures ReadCursor(UvarintBytes(update.cursor.x) + UvarintBytes(update.cursor.y) + [Flag(update.visible)] + rest)
            == Parsed(UpdateCursor(update), rest)
  {
    hide UvarintBytes, ReadUvarint, ReadCoord;
    var x, y, tail := update.cursor.x, update.cursor.y, [Flag(update.visible)] + rest;
    assert UvarintBytes(x) + UvarintBytes(y) + [Flag(update.visible)] + rest == UvarintBytes(x) + UvarintBytes(y) + tail;
    PairRoundTrip(x, y, tail);
    assert tail[1..] == rest;
  }

  lemma {:induction false} ScrollRoundTrip(region: ScrollRegion, rest: Bytes)
    requires LegalScroll(region, MAX_GRID)
    ensures ReadScroll(UvarintBytes(region.top) + UvarintBytes(region.bottom) + UvarintBytes(ZigZag(region.delta)) + rest)
            == Parsed(Scroll(region), rest)
  {
    hide UvarintBytes, ReadUvarint, ReadCoord;
    var tail := UvarintBytes(ZigZag(region.delta)) + rest;
    assert UvarintBytes(region.top) + UvarintBytes(region.bottom) + UvarintBytes(ZigZag(region.delta)) + rest
        == UvarintBytes(region.top) + UvarintBytes(region.bottom) + tail;
    PairRoundTrip(region.top, region.bottom, tail);
    Uvarint64(ZigZag(region.delta), rest);
    ZigZagRoundTrip(region.delta, 0);
  }

  lemma {:induction false} StateCommandRoundTrip(c: WireCommand, valid: Valid, rest: Bytes)
    requires Accepted(c, valid) && InBounds(c)
    requires c.StartRender? || c.StyleInstall? || c.SetWritePosition? || c.SetWriteStyle?
    ensures ReadCommand(Encoded(c, valid) + rest, valid) == Parsed(OnWire(c), rest)
  {
    hide UvarintBytes, ReadUvarint, ReadCoord, ReadStyle, StyleBytes, ReadStart, ReadStyleInstall, WireStyle;
    if c.StartRender? {
      StartRoundTrip(c.revision, c.gridCols, c.gridRows, rest);
      Body3(OP_START, UvarintBytes(c.revision), UvarintBytes(c.gridCols), UvarintBytes(c.gridRows), rest);
    } else if c.StyleInstall? {
      StyleInstallRoundTrip(c.styleId, c.style, rest);
      Body2(OP_STYLE, UvarintBytes(c.styleId), StyleBytes(c.style), rest);
    } else if c.SetWritePosition? {
      PairRoundTrip(c.row, c.column, rest);
      Body2(OP_POSITION, UvarintBytes(c.row), UvarintBytes(c.column), rest);
    } else {
      CoordRoundTrip(c.penId, MAX_UINT32, rest);
      Body1(OP_PEN, UvarintBytes(c.penId), rest);
    }
  }

  lemma {:induction false} TextCommandRoundTrip(c: WireCommand, valid: Valid, rest: Bytes)
    requires Accepted(c, valid) && InBounds(c)
    requires c.WriteText? || c.WriteTextUtf8? || c.WriteTextUtf8Default? || c.WriteCluster?
    ensures ReadCommand(Encoded(c, valid) + rest, valid) == Parsed(OnWire(c), rest)
  {
    hide ReadText, TextBytesOf, ReadWidthText;
    if c.WriteText? {
      WidthTextRoundTrip(c.width, c.text, false, valid, rest);
      Body2(OP_TEXT, [c.width], TextBytesOf(c.text), rest);
    } else if c.WriteCluster? {
      WidthTextRoundTrip(c.width, c.text, true, valid, rest);
      Body2(OP_CLUSTER, [c.width], TextBytesOf(c.text), rest);
    } else {
      TextRoundTrip(c.text, rest, valid);
      Body1(OP_UTF8, TextBytesOf(c.text), rest);
      Body1(OP_UTF8_DEFAULT, TextBytesOf(c.text), rest);
    }
  }

  lemma {:induction false} PaintCommandRoundTrip(c: WireCommand, valid: Valid, rest: Bytes)
    requires Accepted(c, valid) && InBounds(c) && (c.Fill? || c.UpdateCursor? || c.Scroll?)
    ensures ReadCommand(Encoded(c, valid) + rest, valid) == Parsed(OnWire(c), rest)
  {
    hide UvarintBytes, ReadFill, ReadCursor, ReadScroll, ZigZag;
    if c.Fill? {
      FillRoundTrip(c.columns, c.fillRune, c.width, rest);
      Body3(OP_FILL, UvarintBytes(c.columns), UvarintBytes(c.fillRune), [c.width], rest);
    } else if c.UpdateCursor? {
      CursorRoundTrip(c.update, rest);
      Body3(OP_CURSOR, UvarintBytes(c.update.cursor.x), UvarintBytes(c.update.cursor.y), [Flag(c.update.visible)], rest);
    } else {
      ScrollRoundTrip(c.region, rest);
      Body3(OP_SCROLL, UvarintBytes(c.region.top), UvarintBytes(c.region.bottom), UvarintBytes(ZigZag(c.region.delta)), rest);
    }
  }

  /** Every in-bounds command the encoder takes comes back, and takes exactly its
      own bytes. */
  lemma {:induction false} CommandRoundTrip(c: WireCommand, valid: Valid, rest: Bytes)
    requires Accepted(c, valid) && InBounds(c)
    ensures ReadCommand(Encoded(c, valid) + rest, valid) == Parsed(OnWire(c), rest)
  {
    hide ReadCommand, Encoded, OnWire, Accepted, InBounds;
    if c.Fill? || c.UpdateCursor? || c.Scroll? {
      PaintCommandRoundTrip(c, valid, rest);
    } else if c.WriteText? || c.WriteTextUtf8? || c.WriteTextUtf8Default? || c.WriteCluster? {
      TextCommandRoundTrip(c, valid, rest);
    } else {
      StateCommandRoundTrip(c, valid, rest);
    }
  }

  ghost predicate AllAccepted(commands: seq<WireCommand>, valid: Valid) {
    forall i :: 0 <= i < |commands| ==> Accepted(commands[i], valid) && InBounds(commands[i])
  }

  function EncodedAll(commands: seq<WireCommand>, valid: Valid): Bytes
    requires forall i :: 0 <= i < |commands| ==> Accepted(commands[i], valid)
  {
    if commands == [] then [] else Encoded(commands[0], valid) + EncodedAll(commands[1..], valid)
  }

  function OnWireAll(commands: seq<WireCommand>): (out: seq<WireCommand>)
    ensures |out| == |commands|
  {
    seq(|commands|, i requires 0 <= i < |commands| => OnWire(commands[i]))
  }

  lemma {:induction false} EncodedAllAppend(a: seq<WireCommand>, c: WireCommand, valid: Valid)
    requires (forall i :: 0 <= i < |a| ==> Accepted(a[i], valid)) && Accepted(c, valid)
    ensures (forall i :: 0 <= i < |a + [c]| ==> Accepted((a + [c])[i], valid)) && EncodedAll(a + [c], valid) == EncodedAll(a, valid) + Encoded(c, valid)
    decreases |a|
  {
    hide Encoded, Accepted;
    if a == [] {
      assert a + [c] == [c] && [c][1..] == [];
    } else {
      assert (a + [c])[1..] == a[1..] + [c];
      EncodedAllAppend(a[1..], c, valid);
    }
  }

  /** A whole frame's commands, to the last byte. */
  function ReadCommands(d: Bytes, valid: Valid): Option<seq<WireCommand>>
    decreases |d|
  {
    if d == [] then Some([])
    else match ReadCommand(d, valid)
      case Failed(_) => None
      case Parsed(c, rest) =>
        if |rest| >= |d| then None
        else match ReadCommands(rest, valid)
          case None => None
          case Some(others) => Some([c] + others)
  }

  /** Decoding an encoded sequence gives the sequence back. */
  lemma {:induction false} StreamRoundTrip(commands: seq<WireCommand>, valid: Valid)
    requires AllAccepted(commands, valid)
    ensures ReadCommands(EncodedAll(commands, valid), valid) == Some(OnWireAll(commands))
    decreases |commands|
  {
    hide ReadCommand, Encoded, OnWire, InBounds, Accepted;
    if commands == [] {
      assert OnWireAll(commands) == [];
    } else {
      var first, others := commands[0], commands[1..];
      var rest := EncodedAll(others, valid);
      assert Accepted(first, valid) && InBounds(first);
      CommandRoundTrip(first, valid, rest);
      StreamRoundTrip(others, valid);
      assert OnWireAll(commands) == [OnWire(first)] + OnWireAll(others);
    }
  }

  // ----------------------------------------------------------- encoder, decoder

  class DisplayEncoder {
    var buf: Bytes
    const valid: Valid

    constructor (dst: Bytes, valid: Valid)
      ensures buf == dst && this.valid == valid
    {
      buf, this.valid := dst, valid;
    }

    /** `AppendCommand`; a refused command leaves the buffer alone. */
    method AppendCommand(c: WireCommand) returns (ok: bool)
      modifies this
      ensures ok <==> Accepted(c, valid)
      ensures buf == if ok then old(buf) + Encoded(c, valid) else old(buf)
    {
      hide UvarintBytes, StyleBytes, TextBytesOf, Encoded;
      ok := Accepted(c, valid);
      if !ok {
        return;
      }
      if c.StartRender? || c.StyleInstall? || c.SetWritePosition? || c.SetWriteStyle? {
        buf := AppendState(buf, c);
      } else if c.Fill? || c.UpdateCursor? || c.Scroll? {
        buf := AppendPaint(buf, c);
      } else {
        buf := AppendTextCommand(buf, c);
      }
    }

    /** A frame's commands one after another, up to the first refused one. */
    method AppendAll(commands: seq<WireCommand>) returns (count: nat)
      modifies this
      ensures count <= |commands| && (forall i :: 0 <= i < count ==> Accepted(commands[i], valid))
      ensures count < |commands| ==> !Accepted(commands[count], valid)
      ensures buf == old(buf) + EncodedAll(commands[..count], valid)
    {
      hide Encoded, Accepted;
      count := 0;
      assert commands[..0] == [] && old(buf) + [] == old(buf);
      while count < |commands|
        invariant count <= |commands| && (forall i :: 0 <= i < count ==> Accepted(commands[i], valid))
        invariant buf == old(buf) + EncodedAll(commands[..count], valid)
      {
        var ok := AppendCommand(commands[count]);
        if !ok {
          return;
        }
        assert commands[..count + 1] == commands[..count] + [commands[count]];
        EncodedAllAppend(commands[..count], commands[count], valid);
        Join2(old(buf), EncodedAll(commands[..count], valid), Encoded(commands[count], valid));
        count := count + 1;
      }
    }

    method AppendState(dst: Bytes, c: WireCommand) returns (out: Bytes)
      requires Accepted(c, valid) && (c.StartRender? || c.StyleInstall? || c.SetWritePosition? || c.SetWriteStyle?)
      ensures out == dst + Encoded(c, valid)
    {
      hide UvarintBytes, StyleFlags, ColorBytes, ByteColor;
      if c.StartRender? {
        out := AppendUvarint(dst + [OP_START], c.revision);
        out := AppendUvarint(out, c.gridCols);
        out := AppendUvarint(out, c.gridRows);
        Join4(dst, [OP_START], UvarintBytes(c.revision), UvarintBytes(c.gridCols), UvarintBytes(c.gridRows));
      } else if c.StyleInstall? {
        out := AppendUvarint(dst + [OP_STYLE], c.styleId);
        out := AppendUvarint(out, StyleFlags(c.style));
        out := out + ColorBytes(c.style.fg);
        out := out + ColorBytes(c.style.bg);
        var id, flags, fg, bg := UvarintBytes(c.styleId), UvarintBytes(StyleFlags(c.style)), ColorBytes(c.style.fg), ColorBytes(c.style.bg);
        Join3(dst + [OP_STYLE] + id, flags, fg, bg);
        Join3(dst, [OP_STYLE], id, flags + fg + bg);
      } else if c.SetWritePosition? {
        out := AppendUvarint(dst + [OP_POSITION], c.row);
        out := AppendUvarint(out, c.column);
        Join3(dst, [OP_POSITION], UvarintBytes(c.row), UvarintBytes(c.column));
      } else {
        out := AppendUvarint(dst + [OP_PEN], c.penId);
        Join2(dst, [OP_PEN], UvarintBytes(c.penId));
      }
    }

    method AppendPaint(dst: Bytes, c: WireCommand) returns (out: Bytes)
      requires Accepted(c, valid) && (c.Fill? || c.UpdateCursor? || c.Scroll?)
      ensures out == dst + Encoded(c, valid)
    {
      hide UvarintBytes;
      if c.Fill? {
        out := AppendUvarint(dst + [OP_FILL], c.columns);
        out := AppendUvarint(out, c.fillRune);
        out := out + [c.width];
        Join4(dst, [OP_FILL], UvarintBytes(c.columns), UvarintBytes(c.fillRune), [c.width]);
      } else if c.UpdateCursor? {
        out := AppendUvarint(dst + [OP_CURSOR], c.update.cursor.x);
        out := AppendUvarint(out, c.update.cursor.y);
        out := out + [Flag(c.update.visible)];
        Join4(dst, [OP_CURSOR], UvarintBytes(c.update.cursor.x), UvarintBytes(c.update.cursor.y), [Flag(c.update.visible)]);
      } else {
        out := AppendUvarint(dst + [OP_SCROLL], c.region.top);
        out := AppendUvarint(out, c.region.bottom);
        out := AppendUvarint(out, ZigZag(c.region.delta));
        Join4(dst, [OP_SCROLL], UvarintBytes(c.region.top), UvarintBytes(c.region.bottom), UvarintBytes(ZigZag(c.region.delta)));
      }
    }

    method AppendTextCommand(dst: Bytes, c: WireCommand) returns (out: Bytes)
      requires Accepted(c, valid) && (c.WriteText? || c.WriteTextUtf8? || c.WriteTextUtf8Default? || c.WriteCluster?)
      ensures out == dst + Encoded(c, valid)
    {
      hide UvarintBytes;
      var size := UvarintBytes(|c.text|);
      if c.WriteText? || c.WriteCluster? {
        var op := if c.WriteText? then OP_TEXT else OP_CLUSTER;
        out := AppendUvarint(dst + [op] + [c.width], |c.text|);
        out := out + c.text;
        Join2(dst + [op] + [c.width], size, c.text);
        Join3(dst, [op], [c.width], size + c.text);
      } else {
        var op := if c.WriteTextUtf8? then OP_UTF8 else OP_UTF8_DEFAULT;
        out := AppendUvarint(dst + [op], |c.text|);
        out := out + c.text;
        Join2(dst + [op], size, c.text);
        Join2(dst, [op], size + c.text);
      }
    }
  }

  /** Reads commands off a stream of bytes. */
  class DisplayDecoder {
    const data: Bytes
    var position: nat
    const valid: Valid

    predicate Valid()
      reads this
    {
      position <= |data|
    }

    function Rest(): Bytes
      requires Valid()
      reads this
    {
      data[position..]
    }

    constructor (data: Bytes, valid: Valid)
      ensures Valid() && Rest() == data && this.valid == valid
    {
      this.data, position, this.valid := data, 0, valid;
    }

    /** `readUvarint`: seven bits a byte, low ones first. */
    method ReadUnsigned() returns (value: Option<nat>)
      requires Valid()
      modifies this
      ensures Valid()
      ensures value.Some? <==> ReadUvarint(old(Rest()), 0).Parsed?
      ensures value.Some? ==> ReadUvarint(old(Rest()), 0) == Parsed(value.value, Rest())
    {
      hide ReadUvarint;
      ghost var start := Rest();
      var index: nat, sum: nat, scale: nat := 0, 0, 1;
      assert Scaled(ReadUvarint(start, 0), 0, 1) == ReadUvarint(start, 0) by { ScaledByOne(ReadUvarint(start, 0)); }
      while index < 10
        invariant 0 <= index <= 10 && Valid() && scale > 0
        invariant index < 10 ==> Scaled(ReadUvarint(Rest(), index), sum, scale) == ReadUvarint(start, 0)
        invariant index == 10 ==> ReadUvarint(start, 0).Failed?
        decreases 10 - index
      {
        UvarintStep(Rest(), index, sum, scale);
        if position >= |data| {
          return None;
        }
        var b: nat := data[position];
        assert b == Rest()[0] && Rest()[1..] == data[position + 1..];
        position := position + 1;
        if index == 9 && b > 1 {
          return None;
        }
        if b < 128 {
          return Some(sum + b * scale);
        }
        sum := sum + (b - 128) * scale;
        scale := scale * 128;
        index := index + 1;
      }
      value := None;
    }

    /** The rest of a value, given what its lower bytes added up to. */
    static function Scaled(p: Parsed<nat>, sum: nat, scale: nat): Parsed<nat> {
      match p
      case Failed(error) => p
      case Parsed(value, rest) => Parsed(sum + value * scale, rest)
    }

    static lemma {:induction false} ScaledByOne(p: Parsed<nat>)
      ensures Scaled(p, 0, 1) == p
    {
    }

    static lemma {:induction false} Distributed(sum: nat, low: nat, high: nat, scale: nat)
      ensures sum + low * scale + high * (scale * 128) == sum + (low + 128 * high) * scale
    {
      assert (low + 128 * high) * scale == low * scale + 128 * high * scale;
      assert high * (scale * 128) == 128 * high * scale;
    }

    static lemma {:induction false} UvarintStep(d: Bytes, index: nat, sum: nat, scale: nat)
      requires index < 10
      ensures d == [] || (index == 9 && d[0] > 1) ==> ReadUvarint(d, index).Failed?
      ensures d != [] && !(index == 9 && d[0] > 1) && d[0] < 128 ==> ReadUvarint(d, index) == Parsed(d[0], d[1..])
      ensures d != [] && index < 9 && d[0] >= 128 ==>
                Scaled(ReadUvarint(d[1..], index + 1), sum + (d[0] - 128) * scale, scale * 128) == Scaled(ReadUvarint(d, index), sum, scale)
    {
      if d != [] && index < 9 && d[0] >= 128 {
        var high := ReadUvarint(d[1..], index + 1);
        if high.Parsed? {
          Distributed(sum, d[0] - 128, high.value, scale);
        }
      }
    }

    method ReadOne() returns (value: Option<Byte>)
      requires Valid()
      modifies this
      ensures Valid() && Agrees(ReadByte(old(Rest())), value, Rest())
      ensures value.None? ==> Rest() == []
    {
      if position >= |data| {
        return None;
      }
      value := Some(data[position]);
      position := position + 1;
    }

    method ReadBounded(max: nat) returns (value: Option<nat>)
      requires Valid()
      modifies this
      ensures Valid() && Agrees(ReadCoord(old(Rest()), max), value, Rest())
    {
      hide ReadUvarint;
      value := ReadUnsigned();
      if value.Some? && value.value > max {
        value := None;
      }
    }

    method ReadString() returns (text: Option<Bytes>)
      requires Valid()
      modifies this
      ensures Valid() && Agrees(ReadText(old(Rest()), valid), text, Rest())
    {
      hide ReadUvarint;
      var n := ReadUnsigned();
      if n.None? || n.value > MAX_TEXT || n.value > |data| - position {
        return None;
      }
      var bytes := data[position..position + n.value];
      assert Rest()[..n.value] == bytes && Rest()[n.value..] == data[position + n.value..];
      position := position + n.value;
      text := if valid(bytes) then Some(bytes) else None;
    }

    method ReadColorValue() returns (color: Option<Color>)
      requires Valid()
      modifies this
      ensures Valid() && Agrees(ReadColor(old(Rest())), color, Rest())
    {
      ghost var start := Rest();
      var kind := ReadOne();
      if kind.None? || kind.value > 2 {
        return None;
      }
      if kind.value == 0 {
        return Some(DEFAULT_COLOR);
      }
      var first := ReadOne();
      if first.None? {
        return None;
      }
      if kind.value == 1 {
        assert start[2..] == Rest();
        return Some(Color(Indexed, first.value, 0, 0, 0));
      }
      var second := ReadOne();
      if second.None? {
        return None;
      }
      var third := ReadOne();
      if third.None? {
        return None;
      }
      assert start[4..] == Rest();
      color := Some(Color(Rgb, 0, first.value, second.value, third.value));
    }

    method ReadStyleValue() returns (style: Option<Style>)
      requires Valid()
      modifies this
      ensures Valid() && Agrees(ReadStyle(old(Rest())), style, Rest())
    {
      hide ReadUvarint, ReadColor, HasFlag;
      var flags := ReadUnsigned();
      if flags.None? {
        return None;
      }
      var fg := ReadColorValue();
      if fg.None? {
        return None;
      }
      var bg := ReadColorValue();
      if bg.None? {
        return None;
      }
      style := Some(StyleOf(flags.value, fg.value, bg.value));
    }

    method ReadGrid() returns (c: Option<WireCommand>)
      requires Valid()
      modifies this
      ensures Valid() && Agrees(ReadStart(old(Rest())), c, Rest())
    {
      hide ReadUvarint, ReadCoord;
      var revision := ReadUnsigned();
      if revision.None? {
        return None;
      }
      var cols := ReadBounded(MAX_GRID);
      if cols.None? || cols.value == 0 {
        return None;
      }
      var rows := ReadBounded(MAX_GRID);
      if rows.None? || rows.value == 0 {
        return None;
      }
      c := Some(StartRender(revision.value, cols.value, rows.value));
    }

    method ReadPair() returns (first: Option<nat>, second: Option<nat>)
      requires Valid()
      modifies this
      ensures Valid()
      ensures first.Some? <==> ReadCoord(old(Rest()), MAX_GRID).Parsed?
      ensures first.Some? ==> var p := ReadCoord(old(Rest()), MAX_GRID);
                              p.value == first.value && Agrees(ReadCoord(p.rest, MAX_GRID), second, Rest())
      ensures first.None? ==> second.None?
    {
      hide ReadCoord;
      second := None;
      first := ReadBounded(MAX_GRID);
      if first.Some? {
        second := ReadBounded(MAX_GRID);
      }
    }

    method ReadFillCommand() returns (c: Option<WireCommand>)
      requires Valid()
      modifies this
      ensures Valid() && Agrees(ReadFill(old(Rest())), c, Rest())
    {
      hide ReadUvarint, ReadCoord;
      var columns := ReadBounded(MAX_GRID_CELLS);
      if columns.None? || columns.value == 0 {
        return None;
      }
      var r := ReadUnsigned();
      if r.None? || !ScalarValue(r.value) {
        return None;
      }
      var width := ReadOne();
      if width.None? || (width.value != 1 && width.value != 2) || columns.value % width.value != 0 {
        return None;
      }
      c := Some(Fill(columns.value, r.value, width.value));
    }

    method ReadCursorCommand() returns (c: Option<WireCommand>)
      requires Valid()
      modifies this
      ensures Valid() && Agrees(ReadCursor(old(Rest())), c, Rest())
    {
      hide ReadCoord;
      var x, y := ReadPair();
      if x.None? || y.None? {
        return None;
      }
      var flag := ReadOne();
      if flag.None? || flag.value > 1 {
        return None;
      }
      c := Some(UpdateCursor(CursorUpdate(Cursor(x.value, y.value), flag.value == 1)));
    }

    method ReadScrollCommand() returns (c: Option<WireCommand>)
      requires Valid()
      modifies this
      ensures Valid() && Agrees(ReadScroll(old(Rest())), c, Rest())
    {
      hide ReadCoord, ReadUvarint;
      var top, bottom := ReadPair();
      if top.None? || bottom.None? {
        return None;
      }
      var code := ReadUnsigned();
      if code.None? {
        return None;
      }
      var region := ScrollRegion(top.value, bottom.value, UnZigZag(code.value));
      c := if LegalScroll(region, MAX_GRID) then Some(Scroll(region)) else None;
    }

    method ReadTextCommand(opcode: Byte) returns (c: Option<WireCommand>)
      requires Valid() && (opcode == OP_TEXT || opcode == OP_CLUSTER || opcode == OP_UTF8 || opcode == OP_UTF8_DEFAULT)
      modifies this
      ensures Valid()
      ensures opcode == OP_TEXT || opcode == OP_CLUSTER ==> Agrees(ReadWidthText(old(Rest()), opcode == OP_CLUSTER, valid), c, Rest())
      ensures opcode == OP_UTF8 || opcode == OP_UTF8_DEFAULT ==> Agrees(ReadPlainText(old(Rest()), opcode == OP_UTF8_DEFAULT, valid), c, Rest())
    {
      hide ReadText;
      var width: Byte := 1;
      if opcode == OP_TEXT || opcode == OP_CLUSTER {
        var w := ReadOne();
        if w.None? || (w.value != 1 && w.value != 2) {
          return None;
        }
        width := w.value;
      }
      var text := ReadString();
      if text.None? {
        return None;
      }
      if opcode == OP_TEXT {
        return Some(WriteText(width, text.value));
      }
      if opcode == OP_CLUSTER {
        return if text.value == [] then None else Some(WriteCluster(width, text.value));
      }
      c := Some(if opcode == OP_UTF8_DEFAULT then WriteTextUtf8Default(text.value) else WriteTextUtf8(text.value));
    }

    /** `ReadCommand`; `ended` when the stream is over before an opcode. A command
        takes exactly its bytes. */
    method ReadNext() returns (c: Option<WireCommand>, ended: bool)
      requires Valid()
      modifies this
      ensures Valid() && Agrees(ReadCommand(old(Rest()), valid), c, Rest())
      ensures ended <==> old(Rest()) == []
      ensures ended ==> Rest() == []
    {
      hide ReadUvarint, ReadCoord, ReadText, ReadStyle, ReadStart, ReadWidthText, ReadPlainText, ReadFill, ReadCursor, ReadScroll;
      ended := false;
      var opcode := ReadOne();
      if opcode.None? {
        return None, true;
      }
      var op := opcode.value;
      if op == OP_START {
        c := ReadGrid();
      } else if op == OP_STYLE {
        var id := ReadBounded(MAX_UINT32);
        if id.None? {
          return None, false;
        }
        var style := ReadStyleValue();
        c := if style.Some? then Some(StyleInstall(id.value, style.value)) else None;
      } else if op == OP_POSITION {
        var row, column := ReadPair();
        c := if row.Some? && column.Some? then Some(SetWritePosition(row.value, column.value)) else None;
      } else if op == OP_PEN {
        var id := ReadBounded(MAX_UINT32);
        c := if id.Some? then Some(SetWriteStyle(id.value)) else None;
      } else if op == OP_TEXT || op == OP_CLUSTER || op == OP_UTF8 || op == OP_UTF8_DEFAULT {
        c := ReadTextCommand(op);
      } else if op == OP_FILL {
        c := ReadFillCommand();
      } else if op == OP_CURSOR {
        c := ReadCursorCommand();
      } else if op == OP_SCROLL {
        c := ReadScrollCommand();
      } else {
        c := None;
      }
    }

    /** Every command of a frame, or none when one cannot be read. */
    method ReadAll() returns (commands: Option<seq<WireCommand>>)
      requires Valid()
      modifies this
      ensures Valid() && commands == ReadCommands(old(Rest()), valid)
      ensures commands.Some? ==> Rest() == []
    {
      hide ReadCommand;
      var done: seq<WireCommand> := [];
      AfterNone(ReadCommands(Rest(), valid));
      while true
        invariant Valid()
        invariant ReadCommands(old(Rest()), valid) == AfterSome(done, ReadCommands(Rest(), valid))
        decreases |Rest()|
      {
        ghost var before := Rest();
        var c, ended := ReadNext();
        if ended {
          NothingToRead(valid);
          assert done + [] == done;
          return Some(done);
        }
        if c.None? {
          assert ReadCommands(before, valid) == None;
          return None;
        }
        CommandTakes(before, valid);
        NextRead(before, done, valid);
        done := done + [c.value];
      }
    }
  }

  lemma {:induction false} AfterNone(others: Option<seq<WireCommand>>)
    ensures AfterSome([], others) == others
  {
    assert others.Some? ==> [] + others.value == others.value;
  }

  lemma {:induction false} UvarintTakes(d: Bytes, index: nat)
    requires index < 10
    ensures ReadUvarint(d, index).Parsed? ==> |ReadUvarint(d, index).rest| < |d|
    decreases 10 - index
  {
    if d != [] && index < 9 {
      UvarintTakes(d[1..], index + 1);
    }
  }

  lemma {:induction false} ColorTakes(d: Bytes)
    ensures ReadColor(d).Parsed? ==> |ReadColor(d).rest| < |d|
  {
  }

  lemma {:induction false} StyleTakes(d: Bytes)
    ensures ReadStyle(d).Parsed? ==> |ReadStyle(d).rest| < |d|
  {
    hide ReadUvarint, ReadColor, StyleOf;
    UvarintTakes(d, 0);
    if ReadUvarint(d, 0).Parsed? {
      var rest := ReadUvarint(d, 0).rest;
      ColorTakes(rest);
      if ReadColor(rest).Parsed? {
        ColorTakes(ReadColor(rest).rest);
      }
    }
  }

  lemma {:induction false} CoordTakes(d: Bytes, max: nat)
    ensures ReadCoord(d, max).Parsed? ==> |ReadCoord(d, max).rest| < |d|
  {
    hide ReadUvarint;
    UvarintTakes(d, 0);
  }

  lemma {:induction false} TextTakes(d: Bytes, valid: Valid)
    ensures ReadText(d, valid).Parsed? ==> |ReadText(d, valid).rest| < |d|
  {
    hide ReadUvarint;
    UvarintTakes(d, 0);
  }

  lemma {:induction false} BodyTakes(d: Bytes, valid: Valid)
    ensures ReadStart(d).Parsed? ==> |ReadStart(d).rest| <= |d|
    ensures ReadStyleInstall(d).Parsed? ==> |ReadStyleInstall(d).rest| <= |d|
    ensures ReadPosition(d).Parsed? ==> |ReadPosition(d).rest| <= |d|
    ensures forall cluster :: ReadWidthText(d, cluster, valid).Parsed? ==> |ReadWidthText(d, cluster, valid).rest| <= |d|
    ensures forall plain :: ReadPlainText(d, plain, valid).Parsed? ==> |ReadPlainText(d, plain, valid).rest| <= |d|
  {
    hide ReadUvarint, ReadCoord, ReadStyle, ReadText;
    UvarintTakes(d, 0);
    TextTakes(d, valid);
    if d != [] {
      TextTakes(d[1..], valid);
    }
    forall b: Bytes, max: nat ensures ReadCoord(b, max).Parsed? ==> |ReadCoord(b, max).rest| < |b| {
      CoordTakes(b, max);
    }
    forall b: Bytes ensures ReadStyle(b).Parsed? ==> |ReadStyle(b).rest| < |b| {
      StyleTakes(b);
    }
  }

  lemma {:induction false} PaintTakes(d: Bytes)
    ensures ReadFill(d).Parsed? ==> |ReadFill(d).rest| <= |d|
    ensures ReadCursor(d).Parsed? ==> |ReadCursor(d).rest| <= |d|
    ensures ReadScroll(d).Parsed? ==> |ReadScroll(d).rest| <= |d|
  {
    hide ReadUvarint, ReadCoord;
    forall b: Bytes ensures ReadUvarint(b, 0).Parsed? ==> |ReadUvarint(b, 0).rest| < |b| {
      UvarintTakes(b, 0);
    }
    forall b: Bytes, max: nat ensures ReadCoord(b, max).Parsed? ==> |ReadCoord(b, max).rest| < |b| {
      CoordTakes(b, max);
    }
  }

  /** Every command takes at least its opcode. */
  lemma {:induction false} CommandTakes(d: Bytes, valid: Valid)
    ensures ReadCommand(d, valid).Parsed? ==> |ReadCommand(d, valid).rest| < |d|
  {
    hide ReadStart, ReadStyleInstall, ReadPosition, ReadWidthText, ReadPlainText, ReadFill, ReadCursor, ReadScroll, ReadCoord;
    if d != [] {
      CoordTakes(d[1..], MAX_UINT32);
      BodyTakes(d[1..], valid);
      PaintTakes(d[1..]);
    }
  }

  lemma {:induction false} NextRead(d: Bytes, done: seq<WireCommand>, valid: Valid)
    requires ReadCommand(d, valid).Parsed?
    ensures AfterSome(done, ReadCommands(d, valid)) ==
            AfterSome(done + [ReadCommand(d, valid).value], ReadCommands(ReadCommand(d, valid).rest, valid))
  {
    hide ReadCommand;
    CommandTakes(d, valid);
    var c, rest := ReadCommand(d, valid).value, ReadCommand(d, valid).rest;
    assert d != [] by { NothingToRead(valid); }
    match ReadCommands(rest, valid)
    case None =>
    case Some(more) => assert done + ([c] + more) == done + [c] + more;
  }

  lemma {:induction false} NothingToRead(valid: Valid)
    ensures ReadCommand([], valid).Failed? && ReadCommands([], valid) == Some([])
  {
  }

  function AfterSome(done: seq<WireCommand>, others: Option<seq<WireCommand>>): Option<seq<WireCommand>> {
    match others
    case None => None
    case Some(more) => Some(done + more)
  }

  predicate Agrees<T(==)>(p: Parsed<T>, value: Option<T>, rest: Bytes) {
    (value.Some? <==> p.Parsed?) && (value.Some? ==> p == Parsed(value.value, rest))
  }

  // -------------------------------------------------------------- frame headers

  datatype Encoding = Raw | Zlib

  datatype FrameHeader = FrameHeader(encoding: Encoding, rawSize: nat, encodedSize: nat)

  /** `ValidateRenderFrameHeader`. */
  predicate ValidHeader(h: FrameHeader) {
    && 0 < h.rawSize <= MAX_FRAME && 0 < h.encodedSize <= MAX_FRAME
    && (if h.encoding.Raw? then h.encodedSize == h.rawSize else h.encodedSize < h.rawSize)
  }

  function HeaderBytes(h: FrameHeader): Bytes {
    [if h.encoding.Zlib? then 1 else 0] + UvarintBytes(h.rawSize) + UvarintBytes(h.encodedSize)
  }

  /** `AppendRenderFrameHeader`. */
  method AppendHeader(dst: Bytes, h: FrameHeader) returns (ok: bool, out: Bytes)
    ensures ok <==> ValidHeader(h)
    ensures out == if ok then dst + HeaderBytes(h) else dst
  {
    hide UvarintBytes;
    ok, out := ValidHeader(h), dst;
    if !ok {
      return;
    }
    out := out + [if h.encoding.Zlib? then 1 else 0];
    out := AppendUvarint(out, h.rawSize);
    out := AppendUvarint(out, h.encodedSize);
  }

  /** `readCanonicalRenderUvarint`: the same value in fewer bytes is refused. */
  function ReadCanonical(d: Bytes, index: nat): Parsed<nat>
    requires index < 10
    decreases 10 - index
  {
    if d == [] then Failed(Truncated)
    else if index == 9 && d[0] > 1 then Failed(Malformed)
    else if d[0] < 128 then if index > 0 && d[0] == 0 then Failed(Malformed) else Parsed(d[0], d[1..])
    else if index == 9 then Failed(Malformed)
    else match ReadCanonical(d[1..], index + 1)
      case Failed(error) => Failed(error)
      case Parsed(high, rest) => Parsed(d[0] - 128 + 128 * high, rest)
  }

  lemma {:induction false} Digits(low: nat, high: nat)
    requires low < 128
    ensures (low + 128 * high) % 128 == low && (low + 128 * high) / 128 == high
  {
  }

  /** What the canonical reader takes are exactly the bytes of the value. */
  lemma {:induction false} CanonicalBytes(d: Bytes, index: nat)
    requires index < 10 && ReadCanonical(d, index).Parsed?
    ensures var p := ReadCanonical(d, index);
            && d == UvarintBytes(p.value) + p.rest && p.value < Room(index) && (index > 0 ==> p.value > 0)
    decreases 10 - index
  {
    var p := ReadCanonical(d, index);
    if d[0] >= 128 {
      var high := ReadCanonical(d[1..], index + 1);
      CanonicalBytes(d[1..], index + 1);
      Digits(d[0] - 128, high.value);
      assert UvarintBytes(p.value) == [d[0]] + UvarintBytes(high.value);
      assert Room(index) == 128 * Room(index + 1);
      hide Room, UvarintBytes, ReadCanonical;
      assert d == [d[0]] + d[1..] == [d[0]] + (UvarintBytes(high.value) + high.rest);
    } else {
      assert d == [d[0]] + d[1..];
      assert 128 <= Room(index) || index == 9 by { if index < 9 { RoomGrows(index); } }
    }
  }

  lemma {:induction false} RoomGrows(index: nat)
    requires index < 9
    ensures Room(index) >= 256
    decreases 9 - index
  {
    if index < 8 {
      RoomGrows(index + 1);
    }
  }

  lemma {:induction false} CanonicalRoundTrip(value: nat, rest: Bytes, index: nat)
    requires index < 10 && value < Room(index) && (index > 0 ==> value > 0)
    ensures ReadCanonical(UvarintBytes(value) + rest, index) == Parsed(value, rest)
    decreases value
  {
    var bytes := UvarintBytes(value) + rest;
    if value < 128 {
      assert bytes[1..] == rest;
    } else {
      HighPart(value, index);
      var high := value / 128;
      hide Room;
      CanonicalRoundTrip(high, rest, index + 1);
      assert bytes == [128 + value % 128] + (UvarintBytes(high) + rest);
      assert bytes[1..] == UvarintBytes(high) + rest;
    }
  }

  /** `ReadRenderFrameHeader`. */
  function ReadHeader(d: Bytes): Parsed<FrameHeader> {
    if d == [] then Failed(EndOfStream)
    else if d[0] > 1 then Failed(Malformed)
    else match ReadCanonical(d[1..], 0)
      case Failed(error) => Failed(error)
      case Parsed(rawSize, afterRaw) =>
        match ReadCanonical(afterRaw, 0)
        case Failed(error) => Failed(error)
        case Parsed(encodedSize, rest) =>
          var h := FrameHeader(if d[0] == 1 then Zlib else Raw, rawSize, encodedSize);
          if rawSize > MAX_UINT32 || encodedSize > MAX_UINT32 || !ValidHeader(h) then Failed(Malformed) else Parsed(h, rest)
  }

  /** A header comes back from its bytes. */
  lemma {:induction false} HeaderRoundTrip(h: FrameHeader, rest: Bytes)
    requires ValidHeader(h)
    ensures ReadHeader(HeaderBytes(h) + rest) == Parsed(h, rest)
  {
    hide UvarintBytes, ReadCanonical;
    var d := HeaderBytes(h) + rest;
    assert d[1..] == UvarintBytes(h.rawSize) + (UvarintBytes(h.encodedSize) + rest);
    RoomIs64Bits();
    CanonicalRoundTrip(h.rawSize, UvarintBytes(h.encodedSize) + rest, 0);
    CanonicalRoundTrip(h.encodedSize, rest, 0);
  }

  /** The reader accepts canonical headers only: encoding what it read gives exactly
      the bytes it took, as the frame reader counts on. */
  lemma {:induction false} HeaderCanonical(d: Bytes)
    requires ReadHeader(d).Parsed?
    ensures ValidHeader(ReadHeader(d).value) && d == HeaderBytes(ReadHeader(d).value) + ReadHeader(d).rest
  {
    hide UvarintBytes, ReadCanonical;
    var first := ReadCanonical(d[1..], 0);
    CanonicalBytes(d[1..], 0);
    CanonicalBytes(first.rest, 0);
    assert d == [d[0]] + d[1..];
  }
}
