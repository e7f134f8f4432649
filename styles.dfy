/**
 * The cell record `apply_default_styles` works on and what each of its passes
 * does to one cell, as functions; `StyledCell` composes the passes into the
 * cell a sheet ends with, and the lemmas below state the table's look in
 * terms of a cell's position and its column's kind.
 */
module Styles {
  import opened Wrappers
  import opened Text
  import opened Cells

  // ---------------------------------------------------------------------------
  // The cell record

  /** A cell's value: empty (`None`), text, a number coerced by `float()`, or a coerced date. */
  datatype CellValue = Blank | Str(text: string) | Num(literal: string) | DateValue(date: Date)

  datatype LineStyle = Thin | Thick

  /**
   * One side of a border: absent, or a line of a style, drawn in the explicit
   * colour `000000` (`black`) or in the default colour.
   */
  datatype Side = NoSide | Line(style: LineStyle, black: bool)

  datatype Border = Border(left: Side, right: Side, top: Side, bottom: Side)

  /** A solid pattern fill of a hex colour, or none. */
  datatype Fill = NoFill | Solid(colour: string)

  /** Indent level, centring (horizontal and vertical) and wrapping of a cell's text. */
  datatype Alignment = Alignment(indent: nat, centred: bool, wrapText: bool)

  datatype Cell = Cell(value: CellValue, border: Border, fill: Fill, bold: bool, alignment: Alignment, dateFormat: bool)

  const NoBorder := Border(NoSide, NoSide, NoSide, NoSide)
  const DefaultAlignment := Alignment(0, false, false)
  /** `Alignment(indent=1)` */
  const IndentOne := Alignment(1, false, false)
  /** `Alignment(horizontal="center", vertical="center", wrap_text=True)` */
  const CentredWrapped := Alignment(0, true, true)

  /** `Side(border_style="thin", color="000000")` */
  const ThinSide := Line(Thin, true)
  /** `Side(border_style="thick", color="000000")` */
  const BlackThickSide := Line(Thick, true)
  /** `Side(style="thick")` */
  const ThickSide := Line(Thick, false)

  /** `create_border(style)`: the same side on all four edges. */
  function UniformBorder(side: Side): (b: Border)
    ensures b.left == b.right == b.top == b.bottom == side
  {
    Border(side, side, side, side)
  }

  const HeaderColour := "D3D3D3"
  const FirstColumnColour := "F0F0F0"
  const DateColour := "F0E6FF"
  const NumericEvenColour := "E6F1FF"
  const NumericOddColour := "E6E6FF"
  const TextEvenColour := "E6FFE6"
  const TextOddColour := "FFF2E6"

  /** A cell as `ws.append` creates it: a value and openpyxl's default style. */
  function NewCell(v: CellValue): Cell {
    Cell(v, NoBorder, NoFill, false, DefaultAlignment, false)
  }

  predicate IsThick(s: Side) {
    s.Line? && s.style == Thick
  }

  // ---------------------------------------------------------------------------
  // The sheet a list of rows gives

  /** The length of the longest row. */
  function MaxLen(data: seq<seq<string>>): (m: nat)
    ensures forall r :: 0 <= r < |data| ==> |data[r]| <= m
    ensures data == [] ==> m == 0
    ensures data != [] ==> exists r :: 0 <= r < |data| && |data[r]| == m
  {
    if data == [] then 0
    else
      var m := MaxLen(data[..|data| - 1]);
      if |data[|data| - 1]| > m then |data[|data| - 1]| else m
  }

  /** `ws.max_row` after appending the rows: openpyxl reports 1 for a sheet without cells. */
  function Height(data: seq<seq<string>>): (n: nat)
    ensures n >= 1 && n >= |data|
  {
    if |data| == 0 then 1 else |data|
  }

  /** `ws.max_column` after appending the rows: openpyxl reports 1 for a sheet without cells. */
  function Width(data: seq<seq<string>>): (n: nat)
    ensures n >= 1 && forall r :: 0 <= r < |data| ==> |data[r]| <= n
  {
    if MaxLen(data) == 0 then 1 else MaxLen(data)
  }

  /** Every row holds at least one cell, as every row `generate_xlsx` builds does. */
  predicate RowsNonEmpty(data: seq<seq<string>>) {
    forall r :: 0 <= r < |data| ==> |data[r]| > 0
  }

  /** The value at 0-based row `i`, column `j` after `ws.append` of every row: `None` past a row's end. */
  function InitialValue(data: seq<seq<string>>, i: nat, j: nat): (v: CellValue)
    ensures v.Blank? || v.Str?
    ensures v.Str? <==> i < |data| && j < |data[i]|
    ensures v.Str? ==> v.text == data[i][j]
  {
    if i < |data| && j < |data[i]| then Str(data[i][j]) else Blank
  }

  /**
   * The values of column `j` below the header, as `ws.iter_cols(min_row=2)`
   * yields them before any coercion.
   */
  function DataColumn(data: seq<seq<string>>, j: nat): (col: seq<CellValue>)
    ensures |col| == Height(data) - 1
    ensures forall k :: 0 <= k < |col| ==> col[k] == InitialValue(data, k + 1, j)
  {
    seq(Height(data) - 1, k requires 0 <= k => InitialValue(data, k + 1, j))
  }

  // ---------------------------------------------------------------------------
  // Column kinds

  datatype ColumnKind = DateColumn | NumericColumn | TextColumn

  predicate Uncoerced(values: seq<CellValue>) {
    forall k :: 0 <= k < |values| ==> values[k].Blank? || values[k].Str?
  }

  /** `all(is_date(str(cell.value)) for cell in column if cell.value is not None)` */
  predicate AllDates(values: seq<CellValue>) {
    forall k :: 0 <= k < |values| && values[k].Str? ==> DateShaped(values[k].text)
  }

  /** `all(is_number(str(cell.value)) for cell in column if cell.value is not None)` */
  predicate AllNumbers(values: seq<CellValue>) {
    forall k :: 0 <= k < |values| && values[k].Str? ==> IsNumber(values[k].text)
  }

  lemma AllDatesSnoc(values: seq<CellValue>, n: nat)
    requires n < |values|
    ensures AllDates(values[..n + 1]) == (AllDates(values[..n]) && (values[n].Str? ==> DateShaped(values[n].text)))
  {
    var longer, shorter := values[..n + 1], values[..n];
    assert forall k :: 0 <= k < n ==> longer[k] == shorter[k];
    assert longer[n] == values[n];
  }

  lemma AllNumbersSnoc(values: seq<CellValue>, n: nat)
    requires n < |values|
    ensures AllNumbers(values[..n + 1]) == (AllNumbers(values[..n]) && (values[n].Str? ==> IsNumber(values[n].text)))
  {
    var longer, shorter := values[..n + 1], values[..n];
    assert forall k :: 0 <= k < n ==> longer[k] == shorter[k];
    assert longer[n] == values[n];
  }

  /**
   * The kind of a column from its values below the header: a date column when
   * every present value is date-shaped (checked first), else numeric when every
   * present value is a number, else text.
   */
  function Classify(values: seq<CellValue>): (kind: ColumnKind)
    requires Uncoerced(values)
    ensures kind == DateColumn <==> AllDates(values)
    ensures kind == NumericColumn <==> !AllDates(values) && AllNumbers(values)
    ensures kind == TextColumn <==>
              (exists k :: 0 <= k < |values| && values[k].Str? && !DateShaped(values[k].text))
              && (exists k :: 0 <= k < |values| && values[k].Str? && !IsNumber(values[k].text))
  {
    if AllDates(values) then DateColumn
    else if AllNumbers(values) then NumericColumn
    else TextColumn
  }

  function ColumnKindOf(data: seq<seq<string>>, j: nat): ColumnKind {
    Classify(DataColumn(data, j))
  }

  /** A column without any value below its header counts as a date column. */
  lemma EmptyColumnIsDate(values: seq<CellValue>)
    requires forall k :: 0 <= k < |values| ==> values[k] == Blank
    ensures Classify(values) == DateColumn
  {
  }

  /** A formula anywhere below the header makes its column a text column. */
  lemma FormulaForcesText(values: seq<CellValue>, k: nat)
    requires Uncoerced(values)
    requires k < |values| && values[k].Str? && StartsWith(values[k].text, "=")
    ensures Classify(values) == TextColumn
  {
    FormulaNotNumber(values[k].text);
    if DateShaped(values[k].text) {
      DateShapedChars(values[k].text);
      assert false;
    }
  }

  /** A column holding both a date and a number is a text column: no value is both. */
  lemma MixedDateNumberIsText(values: seq<CellValue>, a: nat, b: nat)
    requires Uncoerced(values)
    requires a < |values| && values[a].Str? && DateShaped(values[a].text)
    requires b < |values| && values[b].Str? && IsNumber(values[b].text)
    ensures Classify(values) == TextColumn
  {
    DateShapedNotNumber(values[a].text);
    if DateShaped(values[b].text) {
      DateShapedNotNumber(values[b].text);
    }
  }

  // ---------------------------------------------------------------------------
  // What each pass does to one cell

  /** Pass 1: thin black border all round and an indent of one. */
  function ThinStep(c: Cell): (r: Cell)
    ensures r.value == c.value && r.dateFormat == c.dateFormat && r.fill == c.fill && r.bold == c.bold
  {
    c.(border := UniformBorder(ThinSide), alignment := IndentOne)
  }

  /**
   * Pass 2: a thick side on each edge of the table the cell lies on (0-based
   * row `i` of `rows`, column `j` of `cols`); the other sides are kept.
   */
  function EdgeStep(c: Cell, i: nat, j: nat, rows: nat, cols: nat): (r: Cell)
    ensures r.(border := c.border) == c
    ensures r.border.left == if j == 0 then ThickSide else c.border.left
    ensures r.border.right == if j + 1 == cols then ThickSide else c.border.right
    ensures r.border.top == if i == 0 then ThickSide else c.border.top
    ensures r.border.bottom == if i + 1 == rows then ThickSide else c.border.bottom
  {
    var b := c.border;
    var b1 := if j == 0 then b.(left := ThickSide) else b;
    var b2 := if j + 1 == cols then b1.(right := ThickSide) else b1;
    var b3 := if i == 0 then b2.(top := ThickSide) else b2;
    var b4 := if i + 1 == rows then b3.(bottom := ThickSide) else b3;
    c.(border := b4)
  }

  /** Pass 3, on the first row when there is data: grey, bold, centred and wrapped, thick all round. */
  function HeaderStep(c: Cell): (r: Cell)
    ensures r.value == c.value && r.dateFormat == c.dateFormat
  {
    c.(fill := Solid(HeaderColour), bold := true, alignment := CentredWrapped, border := UniformBorder(BlackThickSide))
  }

  /** Pass 4, on the first column: light grey, bold, centred and wrapped, thick all round. */
  function FirstColumnStep(c: Cell): (r: Cell)
    ensures r.value == c.value && r.dateFormat == c.dateFormat
  {
    c.(fill := Solid(FirstColumnColour), bold := true, alignment := CentredWrapped, border := UniformBorder(BlackThickSide))
  }

  /**
   * The colour of a column's band, `col` counting from 1: one colour for date
   * columns, alternating colours by the parity of `col` for the other kinds.
   */
  function BandColour(kind: ColumnKind, col: nat): (colour: string)
    ensures colour in {DateColour, NumericEvenColour, NumericOddColour, TextEvenColour, TextOddColour}
  {
    match kind
    case DateColumn => DateColour
    case NumericColumn => if col % 2 == 0 then NumericEvenColour else NumericOddColour
    case TextColumn => if col % 2 == 0 then TextEvenColour else TextOddColour
  }

  /**
   * The coercion of pass 5 on a non-empty text: in a date column the first of
   * the three formats that parses it (the text is kept when none does) plus the
   * `yyyy-mm-dd` number format; in a numeric column `float()` of it; nothing in
   * a text column. Empty and absent values are left alone.
   */
  function CoerceStep(c: Cell, kind: ColumnKind): (r: Cell)
    ensures r.(value := c.value, dateFormat := c.dateFormat) == c
    ensures r != c ==> c.value.Str? && c.value.text != [] && kind != TextColumn
    ensures r.dateFormat <==> c.dateFormat || (c.value.Str? && c.value.text != [] && kind == DateColumn)
  {
    if c.value.Str? && c.value.text != [] then
      match kind
      case DateColumn =>
        var v := match ParseDate(c.value.text) case Some(d) => DateValue(d) case None => c.value;
        c.(value := v, dateFormat := true)
      case NumericColumn => c.(value := Num(c.value.text))
      case TextColumn => c
    else
      c
  }

  /** Pass 5 on a cell below the header of column `col` (from 1): coercion, then the band fill. */
  function BandStep(c: Cell, kind: ColumnKind, col: nat): (r: Cell)
    ensures r.fill == Solid(BandColour(kind, col))
    ensures r.border == c.border && r.bold == c.bold && r.alignment == c.alignment
    ensures r.value == CoerceStep(c, kind).value && r.dateFormat == CoerceStep(c, kind).dateFormat
  {
    CoerceStep(c, kind).(fill := Solid(BandColour(kind, col)))
  }

  /** The passes `apply_default_styles` makes over a sheet, in their order. */
  datatype Pass = ThinBorders | OuterEdges | HeaderRow | FirstColumn | ColumnBands

  const DefaultPasses: seq<Pass> := [ThinBorders, OuterEdges, HeaderRow, FirstColumn, ColumnBands]

  /**
   * What pass `p` does to the cell at 0-based row `i`, column `j` of the sheet
   * built from `data`: the header pass runs only when there is data, the band
   * pass only touches the cells below the header.
   */
  function PassStep(p: Pass, data: seq<seq<string>>, i: nat, j: nat, c: Cell): Cell {
    match p
    case ThinBorders => ThinStep(c)
    case OuterEdges => EdgeStep(c, i, j, Height(data), Width(data))
    case HeaderRow => if |data| > 0 && i == 0 then HeaderStep(c) else c
    case FirstColumn => if j == 0 then FirstColumnStep(c) else c
    case ColumnBands => if i >= 1 then BandStep(c, ColumnKindOf(data, j), j + 1) else c
  }

  /** The cell at 0-based row `i`, column `j` after `passes`, from the cell `ws.append` made. */
  function AfterPasses(data: seq<seq<string>>, i: nat, j: nat, passes: seq<Pass>): Cell {
    if passes == [] then NewCell(InitialValue(data, i, j))
    else PassStep(passes[|passes| - 1], data, i, j, AfterPasses(data, i, j, passes[..|passes| - 1]))
  }

  /** The cell at 0-based row `i`, column `j` once every pass has run over the sheet built from `data`. */
  function StyledCell(data: seq<seq<string>>, i: nat, j: nat): Cell {
    AfterPasses(data, i, j, DefaultPasses)
  }

  /** Running one more pass. */
  lemma AfterNextPass(data: seq<seq<string>>, i: nat, j: nat, k: nat)
    requires k < |DefaultPasses|
    ensures AfterPasses(data, i, j, DefaultPasses[..k + 1]) == PassStep(DefaultPasses[k], data, i, j, AfterPasses(data, i, j, DefaultPasses[..k]))
  {
    assert DefaultPasses[..k + 1][..k] == DefaultPasses[..k];
  }

  /** The styled cell spelled out pass by pass. */
  lemma StyledCellSteps(data: seq<seq<string>>, i: nat, j: nat)
    ensures StyledCell(data, i, j) ==
            var c1 := ThinStep(NewCell(InitialValue(data, i, j)));
            var c2 := EdgeStep(c1, i, j, Height(data), Width(data));
            var c3 := if |data| > 0 && i == 0 then HeaderStep(c2) else c2;
            var c4 := if j == 0 then FirstColumnStep(c3) else c3;
            if i >= 1 then BandStep(c4, ColumnKindOf(data, j), j + 1) else c4
  {
    assert DefaultPasses[..0] == [];
    AfterNextPass(data, i, j, 0);
    AfterNextPass(data, i, j, 1);
    AfterNextPass(data, i, j, 2);
    AfterNextPass(data, i, j, 3);
    AfterNextPass(data, i, j, 4);
    assert DefaultPasses[..5] == DefaultPasses;
  }

  // ---------------------------------------------------------------------------
  // The finished table

  /**
   * Borders: the header row and the first column are thick all round; every
   * other cell has thin sides towards its neighbours and a thick side on the
   * table's right and bottom edges. So the whole outline of the table is thick.
   */
  lemma StyledBorders(data: seq<seq<string>>, i: nat, j: nat)
    requires i < Height(data) && j < Width(data)
    ensures var b := StyledCell(data, i, j).border;
            (i == 0 || j == 0) ==> b == UniformBorder(BlackThickSide)
    ensures var b := StyledCell(data, i, j).border;
            (i > 0 && j > 0) ==>
              b.left == ThinSide && b.top == ThinSide
              && b.right == (if j + 1 == Width(data) then ThickSide else ThinSide)
              && b.bottom == (if i + 1 == Height(data) then ThickSide else ThinSide)
    ensures var b := StyledCell(data, i, j).border;
            (j == 0 ==> IsThick(b.left)) && (j + 1 == Width(data) ==> IsThick(b.right))
            && (i == 0 ==> IsThick(b.top)) && (i + 1 == Height(data) ==> IsThick(b.bottom))
  {
    StyledCellSteps(data, i, j);
    if |data| == 0 {
      assert Width(data) == 1;
    }
  }

  /**
   * Fills: the top-left cell ends light grey (the first column's fill is
   * applied after the header's), the rest of the header row grey, and every
   * cell below the header takes its column's band colour, the first column
   * included.
   */
  lemma StyledFill(data: seq<seq<string>>, i: nat, j: nat)
    requires i < Height(data) && j < Width(data)
    ensures i == 0 && j == 0 ==> StyledCell(data, i, j).fill == Solid(FirstColumnColour)
    ensures i == 0 && j > 0 ==> StyledCell(data, i, j).fill == Solid(HeaderColour)
    ensures i > 0 ==> StyledCell(data, i, j).fill == Solid(BandColour(ColumnKindOf(data, j), j + 1))
  {
    StyledCellSteps(data, i, j);
    if |data| == 0 {
      assert Width(data) == 1;
    }
  }

  /**
   * Font and alignment: the header row and the first column are bold,
   * centred and wrapped; every other cell is plain with an indent of one.
   */
  lemma StyledText(data: seq<seq<string>>, i: nat, j: nat)
    requires i < Height(data) && j < Width(data)
    ensures StyledCell(data, i, j).bold <==> i == 0 || j == 0
    ensures StyledCell(data, i, j).alignment == if i == 0 || j == 0 then CentredWrapped else IndentOne
  {
    StyledCellSteps(data, i, j);
    if |data| == 0 {
      assert Width(data) == 1;
    }
  }

  /**
   * Values: the header row keeps its texts; below it, a non-empty text in a
   * numeric column becomes a number, one in a date column becomes the date it
   * parses to (or stays text when it is no valid date) and gets the date
   * format, and everything else is kept.
   */
  lemma StyledValue(data: seq<seq<string>>, i: nat, j: nat)
    requires i < Height(data) && j < Width(data)
    ensures var c := StyledCell(data, i, j);
            var v := InitialValue(data, i, j);
            var present := v.Str? && v.text != [];
            var kind := ColumnKindOf(data, j);
            (c.dateFormat <==> i > 0 && present && kind == DateColumn)
            && (i == 0 || !present || kind == TextColumn ==> c.value == v)
            && (i > 0 && present && kind == NumericColumn ==> c.value == Num(v.text) && IsNumber(v.text))
            && (i > 0 && present && kind == DateColumn ==>
                  DateShaped(v.text)
                  && c.value == match ParseDate(v.text) case Some(d) => DateValue(d) case None => v)
  {
    StyledCellSteps(data, i, j);
    if i > 0 {
      var col := DataColumn(data, j);
      assert col[i - 1] == InitialValue(data, i, j);
    }
  }

  /**
   * The band pass only recolours and coerces: every cell keeps the border the
   * first four passes gave it, and the cells of the header row are untouched.
   */
  lemma BandsKeepBorders(data: seq<seq<string>>, i: nat, j: nat)
    ensures StyledCell(data, i, j).border == AfterPasses(data, i, j, DefaultPasses[..4]).border
    ensures i == 0 ==> StyledCell(data, i, j) == AfterPasses(data, i, j, DefaultPasses[..4])
  {
    AfterNextPass(data, i, j, 4);
    assert DefaultPasses[..5] == DefaultPasses;
  }

  /** No band colour is the header's or the first column's, so below the header the band fill always shows. */
  lemma BandColoursDistinct(kind: ColumnKind, col: nat)
    ensures BandColour(kind, col) != HeaderColour && BandColour(kind, col) != FirstColumnColour
  {
  }

  /** Neighbouring numeric or text columns alternate colours; all date columns share one. */
  lemma BandColoursAlternate(kind: ColumnKind, col: nat)
    ensures kind != DateColumn ==> BandColour(kind, col) != BandColour(kind, col + 1)
    ensures kind != DateColumn ==> BandColour(kind, col) == BandColour(kind, col + 2)
    ensures kind == DateColumn ==> BandColour(kind, col) == DateColour
  {
  }

  // ---------------------------------------------------------------------------
  // Column widths

  /**
   * `len(str(value))`: `"None"` for an empty cell, the text itself, the
   * `YYYY-MM-DD HH:MM:SS` form of a date, and `floatLen` (how long Python's
   * shortest round-trip rendering of the number is) for a number.
   */
  function RenderedLength(v: CellValue, floatLen: string -> nat): nat {
    match v
    case Blank => 4
    case Str(text) => |text|
    case Num(literal) => floatLen(literal)
    case DateValue(_) => 19
  }

  /** The largest element, 0 for none. */
  function SeqMax(s: seq<nat>): (m: nat)
    ensures forall k :: 0 <= k < |s| ==> s[k] <= m
    ensures s == [] ==> m == 0
    ensures s != [] ==> exists k :: 0 <= k < |s| && s[k] == m
  {
    if s == [] then 0
    else
      var m := SeqMax(s[..|s| - 1]);
      if s[|s| - 1] > m then s[|s| - 1] else m
  }

  /** The rendered lengths of the finished column `j`, header included. */
  function StyledLengths(data: seq<seq<string>>, j: nat, floatLen: string -> nat): (lengths: seq<nat>)
    requires j < Width(data)
    ensures |lengths| == Height(data)
    ensures forall i :: 0 <= i < |lengths| ==> lengths[i] == RenderedLength(StyledCell(data, i, j).value, floatLen)
  {
    seq(Height(data), i requires 0 <= i < Height(data) => RenderedLength(StyledCell(data, i, j).value, floatLen))
  }

  /**
   * `(max_length + 2) * 1.2` for the finished column `j`, in tenths of a
   * character so that it stays an integer.
   */
  function StyledWidth(data: seq<seq<string>>, j: nat, floatLen: string -> nat): (w: nat)
    requires j < Width(data)
    ensures w >= 24 && w % 12 == 0
  {
    (SeqMax(StyledLengths(data, j, floatLen)) + 2) * 12
  }

  /**
   * A column is wide enough for the longest rendering among its cells plus two
   * characters, and no wider: the widest cell fits exactly.
   */
  lemma StyledWidthFits(data: seq<seq<string>>, j: nat, floatLen: string -> nat)
    requires j < Width(data)
    ensures StyledWidth(data, j, floatLen) >= 24
    ensures forall i :: 0 <= i < Height(data) ==>
              (RenderedLength(StyledCell(data, i, j).value, floatLen) + 2) * 12 <= StyledWidth(data, j, floatLen)
    ensures exists i :: 0 <= i < Height(data) &&
              (RenderedLength(StyledCell(data, i, j).value, floatLen) + 2) * 12 == StyledWidth(data, j, floatLen)
  {
    var lengths := StyledLengths(data, j, floatLen);
    var k :| 0 <= k < |lengths| && lengths[k] == SeqMax(lengths);
    assert (RenderedLength(StyledCell(data, k, j).value, floatLen) + 2) * 12 == StyledWidth(data, j, floatLen);
  }
}
