/**
 * The text handling of `parse_input_file` and the row-building loop of
 * `generate_xlsx`: the stripped input is cut into blocks at every blank line,
 * each block becomes a sheet named by its `sheet:` lines, and every other
 * line becomes a row of `;`-separated, stripped and unwrapped cell texts.
 */
module InputParser {
  import opened Text
  import opened Cells

  /** `{"name": ..., "data": [...]}`: a sheet's name and its data lines. */
  datatype SheetInfo = SheetInfo(name: string, data: seq<string>)

  const DefaultSheetName: string := "Sheet1"

  /** `content.strip().split('\n\n')`: the blocks of the input, one per sheet. */
  function Blocks(content: string): (r: seq<string>)
    ensures r != []
  {
    Split(Strip(content), "\n\n")
  }

  /** `sheet_data.split('\n')` */
  function Lines(block: string): (r: seq<string>)
    ensures r != []
  {
    Split(block, "\n")
  }

  predicate IsSheetLine(line: string) {
    StartsWith(line, "sheet:")
  }

  /**
   * A `sheet:` line splits on `:` into at least two pieces, the second being
   * the text between its first and second `:`.
   */
  lemma SheetLineSplit(line: string)
    requires IsSheetLine(line)
    ensures |Split(line, ":")| >= 2
    ensures Split(line, ":")[1] == Before(line[6..], ':')
  {
    assert line[..6] == "sheet:";
    assert line[5] == ':';
    assert forall k :: 0 <= k < 5 ==> line[k] != ':' by {
      assert forall k :: 0 <= k < 5 ==> line[k] == "sheet:"[k];
    }
    assert IndexOfAny(line, {':'}) == 5;
    SplitAtFirst(line, ':');
    SplitHead(line[6..], ':');
  }

  /** `line.split(":")[1].strip()`: the name a `sheet:` line gives. */
  function NameOf(line: string): (r: string)
    requires IsSheetLine(line)
    ensures r == Strip(Before(line[6..], ':'))
  {
    SheetLineSplit(line);
    Strip(Split(line, ":")[1])
  }

  /** The name a block's lines give its sheet: that of its last `sheet:` line, else `Sheet1`. */
  function SheetName(lines: seq<string>): string {
    if lines == [] then DefaultSheetName
    else if IsSheetLine(lines[|lines| - 1]) then NameOf(lines[|lines| - 1])
    else SheetName(lines[..|lines| - 1])
  }

  /** The lines of a block that become data: all but the `sheet:` lines, in order. */
  function DataLines(lines: seq<string>): seq<string> {
    if lines == [] then []
    else DataLines(lines[..|lines| - 1]) + (if IsSheetLine(lines[|lines| - 1]) then [] else [lines[|lines| - 1]])
  }

  /** The last `sheet:` line of a block names the sheet; earlier ones are overridden. */
  lemma {:induction false} SheetNameLastWins(lines: seq<string>, k: nat)
    requires k < |lines| && IsSheetLine(lines[k])
    requires forall t :: k < t < |lines| ==> !IsSheetLine(lines[t])
    ensures SheetName(lines) == NameOf(lines[k])
    decreases |lines|
  {
    if k < |lines| - 1 {
      var init := lines[..|lines| - 1];
      SheetNameLastWins(init, k);
    }
  }

  /** A block without `sheet:` lines is named `Sheet1`. */
  lemma {:induction false} SheetNameDefault(lines: seq<string>)
    requires forall t :: 0 <= t < |lines| ==> !IsSheetLine(lines[t])
    ensures SheetName(lines) == DefaultSheetName
    decreases |lines|
  {
    if lines != [] {
      SheetNameDefault(lines[..|lines| - 1]);
    }
  }

  /** Keeping the data lines of two consecutive stretches of lines keeps them in order. */
  lemma {:induction false} DataLinesAppend(a: seq<string>, b: seq<string>)
    ensures DataLines(a + b) == DataLines(a) + DataLines(b)
    decreases |b|
  {
    if b == [] {
      assert a + b == a;
    } else {
      var b' := b[..|b| - 1];
      assert (a + b)[..|a + b| - 1] == a + b';
      assert (a + b)[|a + b| - 1] == b[|b| - 1];
      DataLinesAppend(a, b');
    }
  }

  /** A single line is data exactly when it is not a `sheet:` line. */
  lemma DataLinesSingle(line: string)
    ensures DataLines([line]) == if IsSheetLine(line) then [] else [line]
  {
    assert [line][..0] == [];
  }

  /** No `sheet:` line is kept as data, and a block without `sheet:` lines is kept whole. */
  lemma {:induction false} DataLinesFilter(lines: seq<string>)
    ensures forall t :: 0 <= t < |DataLines(lines)| ==> !IsSheetLine(DataLines(lines)[t])
    ensures (forall t :: 0 <= t < |lines| ==> !IsSheetLine(lines[t])) ==> DataLines(lines) == lines
    decreases |lines|
  {
    if lines != [] {
      var init := lines[..|lines| - 1];
      DataLinesFilter(init);
      assert lines == init + [lines[|lines| - 1]];
    }
  }

  /** Filtering the `sheet:` lines out a second time removes nothing more. */
  lemma DataLinesIdempotent(lines: seq<string>)
    ensures DataLines(DataLines(lines)) == DataLines(lines)
  {
    DataLinesFilter(lines);
    DataLinesFilter(DataLines(lines));
  }

  /** `info` is what `parse_input_file` makes of `block`: its sheet name and its data lines. */
  predicate ParsedFrom(info: SheetInfo, block: string) {
    info.name == SheetName(Lines(block)) && info.data == DataLines(Lines(block))
  }

  /** The body of the block loop of `parse_input_file`: one block's name and data lines. */
  method ParseBlock(block: string) returns (sheetInfo: SheetInfo)
    ensures ParsedFrom(sheetInfo, block)
  {
    sheetInfo := SheetInfo(DefaultSheetName, []);
    var lines := Split(block, "\n");
    for i := 0 to |lines|
      invariant sheetInfo.name == SheetName(lines[..i]) && sheetInfo.data == DataLines(lines[..i])
    {
      var line := lines[i];
      assert lines[..i + 1][..i] == lines[..i];
      if StartsWith(line, "sheet:") {
        SheetLineSplit(line);
        sheetInfo := sheetInfo.(name := Strip(Split(line, ":")[1]));
      } else {
        sheetInfo := sheetInfo.(data := sheetInfo.data + [line]);
      }
    }
    assert lines[..|lines|] == lines;
  }

  /**
   * `parse_input_file` on the text already read: one sheet per block of the
   * stripped input, in order, each named by its last `sheet:` line (else
   * `Sheet1`) and holding its other lines in order.
   */
  method ParseInputFile(content: string) returns (sheets: seq<SheetInfo>)
    ensures |sheets| == |Blocks(content)|
    ensures forall b :: 0 <= b < |sheets| ==> ParsedFrom(sheets[b], Blocks(content)[b])
  {
    var blocks := Split(Strip(content), "\n\n");
    sheets := [];
    for b := 0 to |blocks|
      invariant |sheets| == b
      invariant forall t :: 0 <= t < b ==> ParsedFrom(sheets[t], blocks[t])
    {
      var sheetInfo := ParseBlock(blocks[b]);
      sheets := sheets + [sheetInfo];
    }
  }

  /** The cell texts of one data line: its `;`-separated tokens, stripped and unwrapped. */
  function RowOf(line: string, loads: JsonLoads): (r: seq<string>)
    ensures |r| == |Split(line, ";")|
    ensures forall t :: 0 <= t < |r| ==> r[t] == ProcessCellData(Strip(Split(line, ";")[t]), loads)
  {
    var tokens := Split(line, ";");
    seq(|tokens|, t requires 0 <= t < |tokens| => ProcessCellData(Strip(tokens[t]), loads))
  }

  /** The rows `generate_xlsx` builds from a sheet's lines, one per line that is not a `sheet:` line. */
  function RowsOf(lines: seq<string>, loads: JsonLoads): seq<seq<string>> {
    if lines == [] then []
    else
      var last := lines[|lines| - 1];
      RowsOf(lines[..|lines| - 1], loads) + (if IsSheetLine(last) then [] else [RowOf(last, loads)])
  }

  /** Each row has one cell more than its line has `;`. */
  lemma RowWidth(line: string, loads: JsonLoads)
    ensures |RowOf(line, loads)| == Count(line, ';') + 1
  {
    SplitCount(line, ';');
  }

  /** The rows of a sheet are the rows of its data lines, in the same order. */
  lemma {:induction false} RowsOfDataLines(lines: seq<string>, loads: JsonLoads)
    ensures |RowsOf(lines, loads)| == |DataLines(lines)|
    ensures forall k :: 0 <= k < |RowsOf(lines, loads)| ==> RowsOf(lines, loads)[k] == RowOf(DataLines(lines)[k], loads)
    decreases |lines|
  {
    if lines != [] {
      RowsOfDataLines(lines[..|lines| - 1], loads);
    }
  }

  /** The inner loop of `generate_xlsx`: each `;`-separated token, stripped and unwrapped. */
  method BuildRow(line: string, loads: JsonLoads) returns (rowData: seq<string>)
    ensures rowData == RowOf(line, loads)
  {
    rowData := [];
    var tokens := Split(line, ";");
    for t := 0 to |tokens|
      invariant |rowData| == t
      invariant forall u :: 0 <= u < t ==> rowData[u] == ProcessCellData(Strip(tokens[u]), loads)
    {
      var cellData := Strip(tokens[t]);
      var processedData := ProcessCellData(cellData, loads);
      rowData := rowData + [processedData];
    }
  }

  /**
   * The row loop of `generate_xlsx`: skips `sheet:` lines and turns every
   * other line into the stripped, unwrapped texts of its `;`-separated tokens.
   */
  method BuildRows(lines: seq<string>, loads: JsonLoads) returns (data: seq<seq<string>>)
    ensures data == RowsOf(lines, loads)
    ensures |data| == |DataLines(lines)|
    ensures forall k :: 0 <= k < |data| ==>
              data[k] == RowOf(DataLines(lines)[k], loads) && |data[k]| == Count(DataLines(lines)[k], ';') + 1
  {
    data := [];
    for i := 0 to |lines|
      invariant data == RowsOf(lines[..i], loads)
    {
      var line := lines[i];
      assert lines[..i + 1][..i] == lines[..i];
      if StartsWith(line, "sheet:") {
        continue;
      }
      var rowData := BuildRow(line, loads);
      data := data + [rowData];
    }
    assert lines[..|lines|] == lines;
    RowsOfDataLines(lines, loads);
    forall k | 0 <= k < |data| ensures |data[k]| == Count(DataLines(lines)[k], ';') + 1 {
      RowWidth(DataLines(lines)[k], loads);
    }
  }

  /**
   * An input that is all whitespace gives one block, hence one sheet named
   * `Sheet1` whose single row holds one empty cell.
   */
  lemma BlankInput(content: string, loads: JsonLoads)
    requires forall k :: 0 <= k < |content| ==> IsSpace(content[k])
    ensures Blocks(content) == [""]
    ensures SheetName(Lines("")) == DefaultSheetName && DataLines(Lines("")) == [""]
    ensures RowsOf(DataLines(Lines("")), loads) == [[""]]
  {
    assert Strip(content) == "";
    assert Split("", "\n\n") == [""];
    assert Lines("") == [""];
    assert !IsSheetLine("");
    assert [""][..0] == [];
    assert Split("", ";") == [""];
    assert !IsDescriptor("");
    assert ProcessCellData(Strip(""), loads) == "";
    assert RowOf("", loads) == [""];
    assert RowsOf([""], loads) == RowsOf([], loads) + [RowOf("", loads)];
  }
}
