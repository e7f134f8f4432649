/**
 * The sheet `generate_xlsx` fills and `apply_default_styles` styles in place:
 * a grid of cells, one method per styling pass, and the whole flow from the
 * input text to the styled sheets.
 */
module Worksheets {
  import opened Cells
  import opened InputParser
  import opened Styles

  class Worksheet {
    const title: string
    /** The cells of rows 1..`ws.max_row` and columns 1..`ws.max_column`, 0-based here. */
    const grid: array2<Cell>
    /** `ws.column_dimensions[letter].width` by 1-based column number, in tenths of a character. */
    var widths: map<nat, nat>

    /**
     * `wb.create_sheet(title)` followed by `ws.append(row)` for every row: the
     * grid spans the rows and the longest row, and cells past a row's end are
     * empty.
     */
    constructor (title: string, data: seq<seq<string>>)
      requires RowsNonEmpty(data)
      ensures this.title == title && widths == map[]
      ensures fresh(grid)
      ensures grid.Length0 == Height(data) && grid.Length1 == Width(data)
      ensures forall i, j :: 0 <= i < grid.Length0 && 0 <= j < grid.Length1 ==> grid[i, j] == NewCell(InitialValue(data, i, j))
    {
      this.title := title;
      grid := new Cell[Height(data), Width(data)]((i: nat, j: nat) => NewCell(InitialValue(data, i, j)));
      widths := map[];
    }

    /** Pass 1: every cell gets the thin border and an indent of one. */
    method ApplyThinBorders()
      modifies grid
      ensures forall i, j :: 0 <= i < grid.Length0 && 0 <= j < grid.Length1 ==> grid[i, j] == ThinStep(old(grid[i, j]))
    {
      for i := 0 to grid.Length0
        invariant forall r, c :: 0 <= r < i && 0 <= c < grid.Length1 ==> grid[r, c] == ThinStep(old(grid[r, c]))
        invariant forall r, c :: i <= r < grid.Length0 && 0 <= c < grid.Length1 ==> grid[r, c] == old(grid[r, c])
      {
        for j := 0 to grid.Length1
          invariant forall r, c :: 0 <= r < i && 0 <= c < grid.Length1 ==> grid[r, c] == ThinStep(old(grid[r, c]))
          invariant forall c :: 0 <= c < j ==> grid[i, c] == ThinStep(old(grid[i, c]))
          invariant forall r, c :: i <= r < grid.Length0 && 0 <= c < grid.Length1 && (r > i || c >= j) ==> grid[r, c] == old(grid[r, c])
        {
          grid[i, j] := ThinStep(grid[i, j]);
        }
      }
    }

    /** Pass 2: every cell on an edge of the table gets a thick side on that edge. */
    method ApplyOuterEdges()
      modifies grid
      ensures forall i, j :: 0 <= i < grid.Length0 && 0 <= j < grid.Length1 ==>
                grid[i, j] == EdgeStep(old(grid[i, j]), i, j, grid.Length0, grid.Length1)
    {
      for i := 0 to grid.Length0
        invariant forall r, c :: 0 <= r < i && 0 <= c < grid.Length1 ==>
                    grid[r, c] == EdgeStep(old(grid[r, c]), r, c, grid.Length0, grid.Length1)
        invariant forall r, c :: i <= r < grid.Length0 && 0 <= c < grid.Length1 ==> grid[r, c] == old(grid[r, c])
      {
        for j := 0 to grid.Length1
          invariant forall r, c :: 0 <= r < i && 0 <= c < grid.Length1 ==>
                      grid[r, c] == EdgeStep(old(grid[r, c]), r, c, grid.Length0, grid.Length1)
          invariant forall c :: 0 <= c < j ==> grid[i, c] == EdgeStep(old(grid[i, c]), i, c, grid.Length0, grid.Length1)
          invariant forall r, c :: i <= r < grid.Length0 && 0 <= c < grid.Length1 && (r > i || c >= j) ==> grid[r, c] == old(grid[r, c])
        {
          grid[i, j] := EdgeStep(grid[i, j], i, j, grid.Length0, grid.Length1);
        }
      }
    }

    /** Pass 3: the cells of the first row (`ws[1]`) get the header style. */
    method StyleHeaderRow()
      requires grid.Length0 > 0
      modifies grid
      ensures forall i, j :: 0 <= i < grid.Length0 && 0 <= j < grid.Length1 ==>
                grid[i, j] == if i == 0 then HeaderStep(old(grid[i, j])) else old(grid[i, j])
    {
      for j := 0 to grid.Length1
        invariant forall r, c :: 0 <= r < grid.Length0 && 0 <= c < grid.Length1 ==>
                    grid[r, c] == if r == 0 && c < j then HeaderStep(old(grid[r, c])) else old(grid[r, c])
      {
        grid[0, j] := HeaderStep(grid[0, j]);
      }
    }

    /** Pass 4: the cells of the first column get the first-column style. */
    method StyleFirstColumn()
      requires grid.Length1 > 0
      modifies grid
      ensures forall i, j :: 0 <= i < grid.Length0 && 0 <= j < grid.Length1 ==>
                grid[i, j] == if j == 0 then FirstColumnStep(old(grid[i, j])) else old(grid[i, j])
    {
      for i := 0 to grid.Length0
        invariant forall r, c :: 0 <= r < grid.Length0 && 0 <= c < grid.Length1 ==>
                    grid[r, c] == if c == 0 && r < i then FirstColumnStep(old(grid[r, c])) else old(grid[r, c])
      {
        grid[i, 0] := FirstColumnStep(grid[i, 0]);
      }
    }

    /**
     * `is_numeric_col` for column `j` (0-based): whether every cell below the
     * header whose value is not `None` holds a number.
     */
    method IsNumericColumn(j: nat, ghost data: seq<seq<string>>) returns (isNumeric: bool)
      requires j < grid.Length1 && grid.Length0 == Height(data)
      requires forall i :: 0 <= i < grid.Length0 ==> grid[i, j].value == InitialValue(data, i, j)
      ensures isNumeric == AllNumbers(DataColumn(data, j))
    {
      ghost var column := DataColumn(data, j);
      isNumeric := true;
      for i := 1 to grid.Length0
        invariant isNumeric == AllNumbers(column[..i - 1])
      {
        assert column[i - 1] == grid[i, j].value;
        AllNumbersSnoc(column, i - 1);
        var v := grid[i, j].value;
        if v.Str? && !IsNumber(v.text) {
          isNumeric := false;
        }
      }
      assert column[..grid.Length0 - 1] == column;
    }

    /**
     * `is_date_col` for column `j` (0-based): whether every cell below the
     * header whose value is not `None` passes `is_date`.
     */
    method IsDateColumn(j: nat, ghost data: seq<seq<string>>) returns (isDate: bool)
      requires j < grid.Length1 && grid.Length0 == Height(data)
      requires forall i :: 0 <= i < grid.Length0 ==> grid[i, j].value == InitialValue(data, i, j)
      ensures isDate == AllDates(DataColumn(data, j))
    {
      ghost var column := DataColumn(data, j);
      isDate := true;
      for i := 1 to grid.Length0
        invariant isDate == AllDates(column[..i - 1])
      {
        assert column[i - 1] == grid[i, j].value;
        AllDatesSnoc(column, i - 1);
        var v := grid[i, j].value;
        if v.Str? {
          var matched := IsDate(v.text);
          if !matched {
            isDate := false;
          }
        }
      }
      assert column[..grid.Length0 - 1] == column;
    }

    /** The kind of column `j` (0-based) in the sheet built from `data`, from the two tests above. */
    method ColumnKindAt(j: nat, ghost data: seq<seq<string>>) returns (kind: ColumnKind)
      requires j < grid.Length1 && grid.Length0 == Height(data)
      requires forall i :: 0 <= i < grid.Length0 ==> grid[i, j].value == InitialValue(data, i, j)
      ensures kind == ColumnKindOf(data, j)
    {
      var isNumeric := IsNumericColumn(j, data);
      var isDate := IsDateColumn(j, data);
      if isDate {
        kind := DateColumn;
      } else if isNumeric {
        kind := NumericColumn;
      } else {
        kind := TextColumn;
      }
    }

    /** The coercion loop of pass 5 over the cells of column `j` below the header. */
    method CoerceColumn(j: nat, kind: ColumnKind)
      requires j < grid.Length1 && grid.Length0 > 0
      modifies grid
      ensures forall r, c :: 0 <= r < grid.Length0 && 0 <= c < grid.Length1 ==>
                grid[r, c] == if c == j && r >= 1 then CoerceStep(old(grid[r, c]), kind) else old(grid[r, c])
    {
      for i := 1 to grid.Length0
        invariant forall r, c :: 0 <= r < grid.Length0 && 0 <= c < grid.Length1 ==>
                    grid[r, c] == if c == j && 1 <= r < i then CoerceStep(old(grid[r, c]), kind) else old(grid[r, c])
      {
        var cell := grid[i, j];
        if cell.value.Str? && cell.value.text != [] {
          if kind == DateColumn {
            var parsed := ParseDate(cell.value.text);
            if parsed.Some? {
              cell := cell.(value := DateValue(parsed.value));
            }
            cell := cell.(dateFormat := true);
          } else if kind == NumericColumn {
            cell := cell.(value := Num(cell.value.text));
          }
        }
        grid[i, j] := cell;
      }
    }

    /** The fill loop of pass 5 over the cells of column `j` below the header; the borders are kept. */
    method FillColumn(j: nat, colour: string)
      requires j < grid.Length1 && grid.Length0 > 0
      modifies grid
      ensures forall r, c :: 0 <= r < grid.Length0 && 0 <= c < grid.Length1 ==>
                grid[r, c] == if c == j && r >= 1 then old(grid[r, c]).(fill := Solid(colour)) else old(grid[r, c])
    {
      for i := 1 to grid.Length0
        invariant forall r, c :: 0 <= r < grid.Length0 && 0 <= c < grid.Length1 ==>
                    grid[r, c] == if c == j && 1 <= r < i then old(grid[r, c]).(fill := Solid(colour)) else old(grid[r, c])
      {
        grid[i, j] := grid[i, j].(fill := Solid(colour));
      }
    }

    /**
     * One column of pass 5: classify the values below the header, coerce them
     * and fill them with the band colour of the column's kind and number.
     */
    method StyleColumn(j: nat, ghost data: seq<seq<string>>)
      requires j < grid.Length1 && grid.Length0 == Height(data)
      requires forall i :: 0 <= i < grid.Length0 ==> grid[i, j].value == InitialValue(data, i, j)
      modifies grid
      ensures forall r, c :: 0 <= r < grid.Length0 && 0 <= c < grid.Length1 ==>
                grid[r, c] == if c == j && r >= 1 then BandStep(old(grid[r, c]), ColumnKindOf(data, j), j + 1) else old(grid[r, c])
    {
      var kind := ColumnKindAt(j, data);
      CoerceColumn(j, kind);
      FillColumn(j, BandColour(kind, j + 1));
    }

    /** Pass 5, column by column. */
    method StyleColumnBands(ghost data: seq<seq<string>>)
      requires grid.Length0 == Height(data) && grid.Length1 == Width(data)
      requires forall i, j :: 0 <= i < grid.Length0 && 0 <= j < grid.Length1 ==> grid[i, j].value == InitialValue(data, i, j)
      modifies grid
      ensures forall i, j :: 0 <= i < grid.Length0 && 0 <= j < grid.Length1 ==>
                grid[i, j] == if i >= 1 then BandStep(old(grid[i, j]), ColumnKindOf(data, j), j + 1) else old(grid[i, j])
    {
      for j := 0 to grid.Length1
        invariant forall r, c :: 0 <= r < grid.Length0 && 0 <= c < grid.Length1 ==>
                    grid[r, c] == if r >= 1 && c < j then BandStep(old(grid[r, c]), ColumnKindOf(data, c), c + 1) else old(grid[r, c])
      {
        StyleColumn(j, data);
      }
    }

    /**
     * `max_length` of column `j` (0-based): the longest `len(str(cell.value))`
     * among all its cells, header included.
     */
    method ColumnMaxLength(j: nat, floatLen: string -> nat) returns (maxLength: nat)
      requires j < grid.Length1
      ensures forall i :: 0 <= i < grid.Length0 ==> RenderedLength(grid[i, j].value, floatLen) <= maxLength
      ensures grid.Length0 == 0 ==> maxLength == 0
      ensures grid.Length0 > 0 ==> exists i :: 0 <= i < grid.Length0 && RenderedLength(grid[i, j].value, floatLen) == maxLength
    {
      maxLength := 0;
      for i := 0 to grid.Length0
        invariant forall r :: 0 <= r < i ==> RenderedLength(grid[r, j].value, floatLen) <= maxLength
        invariant i == 0 ==> maxLength == 0
        invariant i > 0 ==> exists r :: 0 <= r < i && RenderedLength(grid[r, j].value, floatLen) == maxLength
      {
        var length := RenderedLength(grid[i, j].value, floatLen);
        if length > maxLength {
          maxLength := length;
        }
      }
    }

    /**
     * `w` is `(max_length + 2) * 12` for column `j` (0-based): every cell's
     * rendering plus two fits, and the longest one fits exactly.
     */
    ghost predicate FitsColumn(j: nat, w: nat, floatLen: string -> nat)
      requires j < grid.Length1
      reads grid
    {
      (forall i :: 0 <= i < grid.Length0 ==> (RenderedLength(grid[i, j].value, floatLen) + 2) * 12 <= w)
      && (grid.Length0 > 0 ==> exists i :: 0 <= i < grid.Length0 && (RenderedLength(grid[i, j].value, floatLen) + 2) * 12 == w)
    }

    /** Pass 6: every column's width becomes `(max_length + 2) * 1.2`. */
    method SetColumnWidths(floatLen: string -> nat)
      modifies this
      ensures forall c :: c in widths <==> c in old(widths) || 1 <= c <= grid.Length1
      ensures forall c :: c in old(widths) && !(1 <= c <= grid.Length1) ==> widths[c] == old(widths)[c]
      ensures forall c :: 1 <= c <= grid.Length1 ==> FitsColumn(c - 1, widths[c], floatLen)
    {
      for j := 0 to grid.Length1
        invariant forall c :: c in widths <==> c in old(widths) || 1 <= c <= j
        invariant forall c :: c in old(widths) && !(1 <= c <= j) ==> widths[c] == old(widths)[c]
        invariant forall c :: 1 <= c <= j ==> FitsColumn(c - 1, widths[c], floatLen)
      {
        var maxLength := ColumnMaxLength(j, floatLen);
        widths := widths[j + 1 := (maxLength + 2) * 12];
      }
    }

    /** Passes 1 to 3 on the sheet just built from `data`: borders, outer edges, header row. */
    method StyleOutline(data: seq<seq<string>>)
      requires grid.Length0 == Height(data) && grid.Length1 == Width(data)
      requires forall i, j :: 0 <= i < grid.Length0 && 0 <= j < grid.Length1 ==> grid[i, j] == NewCell(InitialValue(data, i, j))
      modifies grid
      ensures forall i, j :: 0 <= i < grid.Length0 && 0 <= j < grid.Length1 ==> grid[i, j] == AfterPasses(data, i, j, DefaultPasses[..3])
      ensures forall i, j :: 0 <= i < grid.Length0 && 0 <= j < grid.Length1 ==> grid[i, j].value == InitialValue(data, i, j)
    {
      assert DefaultPasses[..0] == [];
      ApplyThinBorders();
      forall i, j | 0 <= i < grid.Length0 && 0 <= j < grid.Length1
        ensures grid[i, j] == AfterPasses(data, i, j, DefaultPasses[..1])
      {
        AfterNextPass(data, i, j, 0);
      }
      ApplyOuterEdges();
      forall i, j | 0 <= i < grid.Length0 && 0 <= j < grid.Length1
        ensures grid[i, j] == AfterPasses(data, i, j, DefaultPasses[..2])
      {
        AfterNextPass(data, i, j, 1);
      }
      if |data| > 0 {
        StyleHeaderRow();
      }
      forall i, j | 0 <= i < grid.Length0 && 0 <= j < grid.Length1
        ensures grid[i, j] == AfterPasses(data, i, j, DefaultPasses[..3])
      {
        AfterNextPass(data, i, j, 2);
      }
    }

    /** Passes 1 to 5 on the sheet just built from `data`: every cell ends as `StyledCell` says. */
    method StyleCells(data: seq<seq<string>>)
      requires grid.Length0 == Height(data) && grid.Length1 == Width(data)
      requires forall i, j :: 0 <= i < grid.Length0 && 0 <= j < grid.Length1 ==> grid[i, j] == NewCell(InitialValue(data, i, j))
      modifies grid
      ensures StyledFrom(this, data)
    {
      StyleOutline(data);
      StyleFirstColumn();
      forall i, j | 0 <= i < grid.Length0 && 0 <= j < grid.Length1
        ensures grid[i, j] == AfterPasses(data, i, j, DefaultPasses[..4])
      {
        AfterNextPass(data, i, j, 3);
      }
      StyleColumnBands(data);
      forall i, j | 0 <= i < grid.Length0 && 0 <= j < grid.Length1
        ensures grid[i, j] == StyledCell(data, i, j)
      {
        AfterNextPass(data, i, j, 4);
        assert DefaultPasses[..5] == DefaultPasses;
      }
    }

    /**
     * `apply_default_styles(ws, data)` on the sheet just built from `data`:
     * every cell ends as `StyledCell` says and every column is as wide as
     * `StyledWidth` says.
     */
    method ApplyDefaultStyles(data: seq<seq<string>>, floatLen: string -> nat)
      requires grid.Length0 == Height(data) && grid.Length1 == Width(data)
      requires forall i, j :: 0 <= i < grid.Length0 && 0 <= j < grid.Length1 ==> grid[i, j] == NewCell(InitialValue(data, i, j))
      modifies this, grid
      ensures StyledFrom(this, data)
      ensures forall c :: c in widths <==> c in old(widths) || 1 <= c <= grid.Length1
      ensures forall c :: 1 <= c <= grid.Length1 ==> widths[c] == StyledWidth(data, c - 1, floatLen)
    {
      StyleCells(data);
      SetColumnWidths(floatLen);
      forall c | 1 <= c <= grid.Length1
        ensures widths[c] == StyledWidth(data, c - 1, floatLen)
      {
        FitsStyledWidth(data, c - 1, widths[c], floatLen);
      }
    }

    /** On a finished sheet, the one width that fits column `j` is `StyledWidth`. */
    lemma FitsStyledWidth(data: seq<seq<string>>, j: nat, w: nat, floatLen: string -> nat)
      requires StyledFrom(this, data) && j < grid.Length1
      requires FitsColumn(j, w, floatLen)
      ensures w == StyledWidth(data, j, floatLen)
    {
      SeqMaxUnique(StyledLengths(data, j, floatLen), w / 12 - 2);
    }
  }

  /** A bound that every element respects and some element reaches is the maximum. */
  lemma SeqMaxUnique(s: seq<nat>, m: int)
    requires forall k :: 0 <= k < |s| ==> s[k] <= m
    requires exists k :: 0 <= k < |s| && s[k] == m
    ensures SeqMax(s) == m
  {
  }

  /** Every row `generate_xlsx` builds holds at least one cell. */
  lemma RowsOfNonEmpty(lines: seq<string>, loads: JsonLoads)
    ensures RowsNonEmpty(RowsOf(lines, loads))
  {
    RowsOfDataLines(lines, loads);
  }

  /** `ws` holds the styled sheet built from `data`: its shape and every cell. */
  ghost predicate StyledFrom(ws: Worksheet, data: seq<seq<string>>)
    reads ws.grid
  {
    ws.grid.Length0 == Height(data) && ws.grid.Length1 == Width(data)
    && forall i, j :: 0 <= i < ws.grid.Length0 && 0 <= j < ws.grid.Length1 ==> ws.grid[i, j] == StyledCell(data, i, j)
  }

  /** The columns of `ws` have exactly the widths `StyledWidth` gives for `data`, and no others are set. */
  ghost predicate SizedFrom(ws: Worksheet, data: seq<seq<string>>, floatLen: string -> nat)
    reads ws
  {
    ws.grid.Length1 == Width(data)
    && (forall c :: c in ws.widths <==> 1 <= c <= ws.grid.Length1)
    && (forall c :: 1 <= c <= ws.grid.Length1 ==> ws.widths[c] == StyledWidth(data, c - 1, floatLen))
  }

  /**
   * The body of the sheet loop of `generate_xlsx`: build the rows, create the
   * sheet, append them and style it.
   */
  method GenerateSheet(info: SheetInfo, loads: JsonLoads, floatLen: string -> nat) returns (ws: Worksheet)
    ensures fresh(ws) && fresh(ws.grid)
    ensures ws.title == info.name
    ensures var data := RowsOf(info.data, loads);
            StyledFrom(ws, data)
            && (forall c :: c in ws.widths <==> 1 <= c <= ws.grid.Length1)
            && (forall c :: 1 <= c <= ws.grid.Length1 ==> ws.widths[c] == StyledWidth(data, c - 1, floatLen))
  {
    var data := BuildRows(info.data, loads);
    RowsOfNonEmpty(info.data, loads);
    ws := new Worksheet(info.name, data);
    ws.ApplyDefaultStyles(data, floatLen);
  }

  /**
   * The sheet `ws` was created from `info`: its title is the sheet name, its
   * grid the styled rows and its column widths those of the styled rows.
   */
  ghost predicate BuiltFrom(ws: Worksheet, info: SheetInfo, loads: JsonLoads, floatLen: string -> nat)
    reads ws, ws.grid
  {
    ws.title == info.name && StyledFrom(ws, RowsOf(info.data, loads)) && SizedFrom(ws, RowsOf(info.data, loads), floatLen)
  }

  /** The sheet loop of `generate_xlsx`: one styled sheet per parsed sheet, in order. */
  method GenerateSheets(sheetsData: seq<SheetInfo>, loads: JsonLoads, floatLen: string -> nat) returns (sheets: seq<Worksheet>)
    ensures |sheets| == |sheetsData|
    ensures forall b :: 0 <= b < |sheets| ==> fresh(sheets[b]) && fresh(sheets[b].grid)
    ensures forall b :: 0 <= b < |sheets| ==> BuiltFrom(sheets[b], sheetsData[b], loads, floatLen)
  {
    sheets := [];
    for b := 0 to |sheetsData|
      invariant |sheets| == b
      invariant forall t :: 0 <= t < b ==> fresh(sheets[t]) && fresh(sheets[t].grid)
      invariant forall t :: 0 <= t < b ==> BuiltFrom(sheets[t], sheetsData[t], loads, floatLen)
    {
      var ws := GenerateSheet(sheetsData[b], loads, floatLen);
      assert BuiltFrom(ws, sheetsData[b], loads, floatLen);
      sheets := sheets + [ws];
    }
  }

  /**
   * `generate_xlsx` up to saving: one styled sheet per block of the input, in
   * order, titled by the block's sheet name, its cells styled and its columns
   * sized from the rows of the block's data lines.
   */
  method GenerateWorkbook(content: string, loads: JsonLoads, floatLen: string -> nat) returns (sheets: seq<Worksheet>)
    ensures |sheets| == |Blocks(content)|
    ensures forall b :: 0 <= b < |sheets| ==> fresh(sheets[b]) && fresh(sheets[b].grid)
    ensures forall b :: 0 <= b < |sheets| ==> sheets[b].title == SheetName(Lines(Blocks(content)[b]))
    ensures forall b :: 0 <= b < |sheets| ==> StyledFrom(sheets[b], RowsOf(DataLines(Lines(Blocks(content)[b])), loads))
    ensures forall b :: 0 <= b < |sheets| ==> SizedFrom(sheets[b], RowsOf(DataLines(Lines(Blocks(content)[b])), loads), floatLen)
  {
    var sheetsData := ParseInputFile(content);
    sheets := GenerateSheets(sheetsData, loads, floatLen);
    forall b | 0 <= b < |sheets|
      ensures sheets[b].title == SheetName(Lines(Blocks(content)[b]))
      ensures StyledFrom(sheets[b], RowsOf(DataLines(Lines(Blocks(content)[b])), loads))
      ensures SizedFrom(sheets[b], RowsOf(DataLines(Lines(Blocks(content)[b])), loads), floatLen)
    {
      assert BuiltFrom(sheets[b], sheetsData[b], loads, floatLen);
      assert ParsedFrom(sheetsData[b], Blocks(content)[b]);
    }
  }
}
