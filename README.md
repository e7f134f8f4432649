# xlsx-generator, modelled in Dafny

`xlsx.py` turns a text file into a styled spreadsheet. The trimmed input is cut
into blocks at every blank line, and each block becomes a sheet. A `sheet:NAME`
line names its sheet. Every other line is a row of `;`-separated cells, and a
cell written as a `{"value": ...}` JSON object contributes that value.
`apply_default_styles` then passes over each sheet's grid six times:

1. thin borders and an indent on every cell;
2. thick sides on the table's outer edges;
3. a grey, bold, centred header row (only when there is data);
4. a bold, centred first column;
5. per column: a date, numeric or text classification of the values below the
   header, coercion of those values, and a band colour;
6. column widths from the longest rendered value.

This project models that core and proves what each step promises:

- the parser is one sheet per block, last `sheet:` line wins, one row per data
  line with `count(';') + 1` cells;
- `is_date` is an exact match of three shapes written with ASCII digits;
- `float()` acceptance is a scanner over Python's numeric syntax, with ASCII
  digits, between the whitespace `float()` strips;
- the JSON unwrapping is stated case by case;
- the style engine is a class over an `array2` of cell records. It has one
  method per pass, each proved against a per-cell step function.

The finished sheet is `StyledCell`, the fold of the five cell passes, and
`StyledWidth` gives the widths. Lemmas spell out the borders, fills, fonts,
alignment, values and widths of every cell of the finished table.

Files:

- `wrappers.dfy`: `Option`.
- `text.dfy`: Python `str` operations: `isspace`, `strip`, `startswith`, `split`, `count`.
- `cells.dfy`: `is_date`, `is_number` (the `float()` scanner), `process_cell_data`, and `strptime` on the three date formats.
- `parser.dfy`: `parse_input_file` and the row loop of `generate_xlsx`.
- `styles.dfy`: the cell record, column classification, what each pass does to one cell, and the finished table.
- `worksheet.dfy`: the `Worksheet` class, its pass methods, and the sheet and workbook flow.

Behaviour that may surprise a reader, all modelled as the code has it:

- A column with no value below its header is a date column: `all()` over nothing is true, and the date test comes first (`EmptyColumnIsDate`).
- The band pass starts at row 2 and includes column 1. So rows 2 and below of the first column end with the band colour, not the first-column grey (`StyledFill`).
- The top-left cell ends with the first column's `F0F0F0`, not the header's `D3D3D3`, because the first-column pass (xlsx.py:149-155) runs after the header-row pass (xlsx.py:134-139) and overwrites its fill (`StyledFill`).
- The comment at xlsx.py:73 calls the slash shape `MM/DD/YYYY`, but coercion reads it as `%d/%m/%Y` (xlsx.py:170). So `01/02/2024` becomes 1 February, and `12/31/2024` makes a date column yet stays text (`SlashDatesAreDayFirst`). The model follows the code.
- Input that is empty or all whitespace still gives one sheet, `Sheet1`, holding a single row with one empty cell (`BlankInput`).
- A sheet with no rows (a block made only of `sheet:` lines) is modelled as a 1×1 grid. On an empty sheet openpyxl's unbounded `iter_rows()` yields nothing, so passes 1 and 2 visit no cell there. But the first-column loop (`iter_cols(min_col=1, max_col=1)`) creates A1, and the width loop then reaches it. That loop overwrites every part of A1 that passes 1 and 2 set, so the finished A1 (light grey, bold, centred, thick all round, value `None`) and its width of `(4 + 2) * 1.2` are the same either way.
- The `sheet:` skip in the row loop (xlsx.py:242-243) never fires, because `parse_input_file` has already removed those lines (`DataLinesIdempotent`).

## Model

| member | source | states |
|---|---|---|
| Text.IsSpace | xlsx.py:49 | the characters `str.isspace()` accepts and `strip()` removes: `\t` to `\r`, U+001C to U+0020, U+0085, U+00A0, U+1680, U+2000 to U+200A, U+2028, U+2029, U+202F, U+205F and U+3000 |
| Text.Strip | xlsx.py:49 | `strip()` leaves a slice of the input with only whitespace cut from either end; it neither starts nor ends with whitespace, and it is empty exactly when the input is all whitespace |
| Text.StripIdempotent | xlsx.py:49 | stripping a stripped text changes nothing |
| Text.StartsWith | xlsx.py:56 | `s.startswith(prefix)`: the prefix fits in the text and its first `len(prefix)` characters are the prefix |
| Text.EndsWith | xlsx.py:214 | `s.endswith(suffix)`: the suffix fits in the text and its last `len(suffix)` characters are the suffix |
| Text.Split | xlsx.py:54 | `s.split(sep)` for a non-empty separator: the pieces between the occurrences of `sep`, found left to right without overlap; never an empty list |
| Text.SplitJoin | xlsx.py:49 | joining the pieces of `split(sep)` with `sep` gives back the text: splitting loses and adds nothing |
| Text.Count | xlsx.py:246 | `s.count(c)`: the number of positions of `s` that hold `c` |
| Text.SplitCount | xlsx.py:246 | splitting on one character gives one piece more than the character's count |
| Text.SplitPiecesFree | xlsx.py:246 | no piece of a split on a character contains that character |
| Text.SplitHead | xlsx.py:57 | the first piece of `split(c)` is the text before the first `c` |
| Text.SplitAtFirst | xlsx.py:57 | when `c` occurs, `split(c)` is the text before it followed by the split of the rest |
| Text.SplitAbsent | xlsx.py:57 | without `c` in the text, `split(c)` is the whole text |
| Cells.FullMatch | xlsx.py:77 | `re.fullmatch` of a fixed-width pattern: the text is exactly as long as the pattern and every character matches its position, a literal or a digit |
| Cells.DateShaped | xlsx.py:71-79 | the texts `is_date` accepts: `dddd-dd-dd`, `dd/dd/dddd` or `dd.dd.dddd`, whole and nothing more |
| Cells.IsoPatternShape | xlsx.py:72 | `\d{4}-\d{2}-\d{2}`, with `\d` read as an ASCII digit, fully matches exactly the ISO-shaped texts |
| Cells.YearLastPatternShape | xlsx.py:73-74 | `\d{2}S\d{2}S\d{4}`, with `\d` read as an ASCII digit, fully matches exactly the year-last texts with separator S |
| Cells.DateFormatShape | xlsx.py:71-75 | the k-th pattern of the list accepts exactly the k-th shape |
| Cells.IsDate | xlsx.py:70-79 | `is_date` returns true iff the text has one of the three shapes, trying the patterns in order and stopping at the first full match |
| Cells.DateShapedExact | xlsx.py:77 | a full match: a date shape with extra characters before or after, or any shorter slice of one, is not date-shaped |
| Cells.DateShapeIgnoresCalendar | xlsx.py:72-74 | the shape test checks no calendar: `9999-99-99`, `00/00/0000` and `31.02.2023` pass it |
| Cells.DateShapedChars | xlsx.py:72-74 | a date-shaped text holds only digits and its separators |
| Cells.FloatSpace | xlsx.py:65 | the whitespace `float()` strips: what `str.isspace()` accepts, except the separators U+001C to U+001F |
| Cells.Step | xlsx.py:65 | one character of the `float()` grammar: whitespace, sign, digits with single underscores between them, a point, an exponent with optional sign, the words `inf`, `infinity` and `nan` in any case, trailing whitespace; anything else rejects for good |
| Cells.Run | xlsx.py:65 | the scanner state after reading a whole text from a given state |
| Cells.IsNumber | xlsx.py:63-68 | `is_number(value)` holds exactly when the scan of the whole text from the start ends in an accepting state: a number with digits, or a complete word, optionally followed by whitespace |
| Cells.RunAppend | xlsx.py:65 | scanning a concatenation continues from the state the first part leaves |
| Cells.RejectFinal | xlsx.py:65-67 | once `float()` has seen a character it cannot accept, nothing after it makes the text a number |
| Cells.RunTrace | xlsx.py:65 | a scan that passes through a given state per character ends in the last one |
| Cells.BlankRun | xlsx.py:65 | reading only whitespace from the start, or after a rejection, ends at the start or in rejection |
| Cells.BlankNotNumber | xlsx.py:63-68 | `is_number` is false on the empty text and on any text `str.isspace()` accepts |
| Cells.SeparatorExample | xlsx.py:65 | `"\x1c1"` is no number: `float()` does not strip U+001C, though `str.isspace()` counts it |
| Cells.FormulaNotNumber | xlsx.py:63-68 | `is_number` is false on any text starting with `=` |
| Cells.IsoNotNumber | xlsx.py:63-68 | no text starting with four digits and `-` is a number |
| Cells.SlashNotNumber | xlsx.py:63-68 | no text starting with two digits and `/` is a number |
| Cells.DotNotNumber | xlsx.py:63-68 | no text starting `dd.dd.` is a number: the second point ends the fraction |
| Cells.DateShapedNotNumber | xlsx.py:63-79 | no date-shaped text is a number |
| Cells.DigitsExample | xlsx.py:65 | `float("10")` succeeds |
| Cells.NumberExample | xlsx.py:65 | `float("-1_0.5e+3")` succeeds: sign, underscore between digits, fraction, signed exponent |
| Cells.PointExamples | xlsx.py:65 | `.5` and `7.` are numbers, a lone `.` is not |
| Cells.NotNumberExamples | xlsx.py:65-67 | `1__0`, `1_` and `1e` are not numbers |
| Cells.InfExample | xlsx.py:65 | `-Inf` is a number: words are read in any case and after a sign |
| Cells.NanExample | xlsx.py:65 | ` nan\t` is a number: whitespace around a word is allowed |
| Cells.ClippedWordExample | xlsx.py:65-67 | `na` is not a number |
| Cells.IsDescriptor | xlsx.py:214 | a token is treated as a JSON descriptor exactly when it starts with `{` and ends with `}` |
| Cells.ProcessCellData | xlsx.py:213-228 | a token that is not `{...}` is returned unchanged, and so is one whose JSON does not parse; a parsed object without `value` gives `""`; otherwise a string value is returned as is (both the `=` and the date branch return it) and any other value as its `str()`; whenever the result differs from the token, the token was a descriptor that parsed |
| Cells.DescriptorActsAsBareValue | xlsx.py:213-228 | `{"value": "t"}` gives the same cell text as `t` written bare |
| Cells.DigitsValue | xlsx.py:167-173 | the number a field of digits stands for, as `strptime` reads `%Y`, `%m` and `%d`: the decimal value of the digits, most significant first |
| Cells.IsLeapYear | xlsx.py:167-173 | the Gregorian leap rule `strptime` checks: divisible by 4, and not by 100 unless by 400 |
| Cells.ValidDate | xlsx.py:167-173 | the dates `strptime` accepts: years 1 to 9999, months 1 to 12, and a day within its month's length |
| Cells.DaysInMonth | xlsx.py:167-173 | every month has 28 to 31 days, and 29 exactly for February of a leap year |
| Cells.Checked | xlsx.py:167-173 | `strptime` gives the date exactly when it is a valid Gregorian date in years 1 to 9999 |
| Cells.Strptime | xlsx.py:167-173 | whatever a format parses is a valid date |
| Cells.ParseDate | xlsx.py:166-175 | the `%Y-%m-%d`, `%d/%m/%Y`, `%d.%m.%Y` chain: an ISO-shaped text gives its year, month and day if valid; a slash or dot text gives day, month and year in that order if valid; every other text gives no date |
| Cells.SlashDatesAreDayFirst | xlsx.py:170 | `01/02/2024` is 1 February 2024 and `12/31/2024` is no date |
| Cells.LeapDayExample | xlsx.py:167 | `2024-02-29` parses: 2024 is a leap year |
| Cells.NonLeapDayExample | xlsx.py:167-175 | `2023-02-29` does not parse |
| Cells.CenturyDayExample | xlsx.py:167-175 | `2100-02-29` does not parse: 2100 is no leap year |
| Cells.YearZeroExample | xlsx.py:167-175 | `0000-01-01` does not parse: year 0 is out of range |
| Cells.ShortMonthExample | xlsx.py:173-175 | `31.04.2024` does not parse: April has 30 days |
| InputParser.Blocks | xlsx.py:49 | there is always at least one block, even for empty input |
| InputParser.Lines | xlsx.py:54 | every block has at least one line |
| InputParser.IsSheetLine | xlsx.py:56 | a line names its sheet exactly when it starts with `sheet:` |
| InputParser.SheetName | xlsx.py:53-57 | the name of a block: `Sheet1`, replaced by the name of every `sheet:` line in turn, so the last such line decides |
| InputParser.DataLines | xlsx.py:55-59 | the lines of a block that are not `sheet:` lines, in their order |
| InputParser.SheetLineSplit | xlsx.py:57 | a `sheet:` line has a second `:`-piece, the text between its first and second `:` |
| InputParser.NameOf | xlsx.py:57 | a `sheet:` line names its sheet with the stripped text between its first and second `:` |
| InputParser.SheetNameLastWins | xlsx.py:55-57 | the last `sheet:` line of a block decides its name |
| InputParser.SheetNameDefault | xlsx.py:53 | a block without `sheet:` lines is named `Sheet1` |
| InputParser.DataLinesAppend | xlsx.py:55-59 | the data lines of two stretches of lines are those of each, in order |
| InputParser.DataLinesSingle | xlsx.py:56-59 | a line is data exactly when it is not a `sheet:` line |
| InputParser.DataLinesFilter | xlsx.py:56-59 | no `sheet:` line is kept as data, and a block without them is kept whole |
| InputParser.DataLinesIdempotent | xlsx.py:242-243 | dropping `sheet:` lines again removes nothing more |
| InputParser.ParsedFrom | xlsx.py:53-60 | a parsed sheet is the block's sheet name and its data lines |
| InputParser.ParseBlock | xlsx.py:53-59 | one block gives the name of its last `sheet:` line (else `Sheet1`) and its other lines in order |
| InputParser.ParseInputFile | xlsx.py:49-61 | one sheet per block of the stripped input, in order, each named and filled as `ParseBlock` says |
| InputParser.RowOf | xlsx.py:246-249 | a row has one cell per `;`-piece of its line, each stripped and passed through `process_cell_data` |
| InputParser.RowsOf | xlsx.py:241-250 | the rows the loop appends: one `RowOf` per line that is not a `sheet:` line, in order |
| InputParser.RowWidth | xlsx.py:246 | each row has exactly `count(';') + 1` cells |
| InputParser.RowsOfDataLines | xlsx.py:241-250 | the rows are those of the data lines, in the same order, one row per data line |
| InputParser.BuildRow | xlsx.py:245-249 | the inner loop builds exactly `RowOf` of its line |
| InputParser.BuildRows | xlsx.py:241-250 | the row loop skips `sheet:` lines and builds one row per data line, in order, each with `count(';') + 1` cells |
| InputParser.BlankInput | xlsx.py:49-60 | all-whitespace input gives one block, named `Sheet1`, with one data line and the single row `[""]` |
| Styles.Height | xlsx.py:107-119 | `ws.max_row` after appending the rows: the row count, and 1 for a sheet without rows; never less than either |
| Styles.Width | xlsx.py:107-119 | `ws.max_column` after appending the rows: the longest row's length, and 1 when there is none; no row is longer |
| Styles.UniformBorder | xlsx.py:81-84 | `create_border(style)`: a border with the same side on all four edges |
| Styles.NewCell | xlsx.py:252-253 | a cell as `ws.append` creates it: the given value with no border, no fill, regular font, default alignment and no date format |
| Styles.MaxLen | xlsx.py:252-253 | the longest row's length bounds every row and is reached by one |
| Styles.InitialValue | xlsx.py:252-253 | after `append`, a cell holds its row's text, and is `None` past the end of a short row or below the last row |
| Styles.DataColumn | xlsx.py:158 | `iter_cols(min_row=2)` yields the column's values from the second row down |
| Styles.AllDates | xlsx.py:160 | `all(is_date(...))` over a column: every value that is not `None` is date-shaped |
| Styles.AllNumbers | xlsx.py:159 | `all(is_number(...))` over a column: every value that is not `None` passes `float()` |
| Styles.AllDatesSnoc | xlsx.py:160 | the `all(is_date ...)` over one more cell is the old value and the new cell's test |
| Styles.AllNumbersSnoc | xlsx.py:159 | the `all(is_number ...)` over one more cell is the old value and the new cell's test |
| Styles.Classify | xlsx.py:159-187 | date iff every present value is date-shaped; numeric iff not date and every present value is a number; text iff some present value is not date-shaped and some is not a number |
| Styles.ColumnKindOf | xlsx.py:158-187 | the kind pass 5 gives column `j` of the sheet built from the rows: `Classify` of its values from row 2 down |
| Styles.EmptyColumnIsDate | xlsx.py:159-162 | a column with no value below its header is a date column |
| Styles.FormulaForcesText | xlsx.py:159-187 | a formula below the header makes its column a text column |
| Styles.MixedDateNumberIsText | xlsx.py:159-187 | a column holding both a date and a number is a text column |
| Styles.ThinStep | xlsx.py:92-95 | pass 1 on a cell: the thin black border all round and an indent of one; value, date format, fill and boldness kept |
| Styles.EdgeStep | xlsx.py:98-123 | pass 2 on a cell: each side that lies on the first or last row or column becomes thick, every other side and everything other than the border is kept |
| Styles.HeaderStep | xlsx.py:134-139 | pass 3 on a header cell: grey fill, bold, centred and wrapped, thick black border; value and date format kept |
| Styles.FirstColumnStep | xlsx.py:149-155 | pass 4 on a first-column cell: light grey fill, bold, centred and wrapped, thick black border; value and date format kept |
| Styles.BandColour | xlsx.py:162-187 | a column's band colour is one of the five band colours: the date colour for date columns, else the even or odd colour of its kind |
| Styles.CoerceStep | xlsx.py:162-183 | coercion changes only the value and the date format, changes nothing in a text column or on an empty or absent value, and sets the date format exactly on non-empty texts of date columns |
| Styles.BandStep | xlsx.py:162-198 | one cell below the header in pass 5: its value and date format are coerced as `CoerceStep` says, its fill becomes the column's band colour, and its borders, font and alignment are kept |
| Styles.PassStep | xlsx.py:91-198 | what each pass does to one cell: pass 1 and 2 everywhere, pass 3 on row 1 and only when there is data, pass 4 on column 1, pass 5 below the header |
| Styles.AfterPasses | xlsx.py:91-198 | a cell after a run of passes: the appended cell with each pass's step applied in order |
| Styles.StyledCell | xlsx.py:91-198 | a cell once all five cell passes have run, in the order of the code |
| Styles.AfterNextPass | xlsx.py:91-198 | running one more pass applies that pass's step to the cell the earlier passes left |
| Styles.StyledCellSteps | xlsx.py:91-198 | the finished cell is pass 1 to pass 5 in order, each pass applied only where the code applies it |
| Styles.StyledBorders | xlsx.py:92-155 | the header row and first column are thick all round; every other cell is thin, with a thick right side in the last column and a thick bottom in the last row; the table's whole outline is thick |
| Styles.StyledFill | xlsx.py:126-156 | cell (1,1) is `F0F0F0`, the rest of row 1 is `D3D3D3`, and every cell of rows 2 and below, column 1 included, has its column's band colour |
| Styles.StyledText | xlsx.py:91-156 | a finished cell is bold iff it is in row 1 or column 1, and then centred and wrapped; otherwise it has an indent of one |
| Styles.StyledValue | xlsx.py:158-187 | header values are never coerced; below it, a non-empty value in a numeric column becomes a number and passed `float()`; one in a date column is date-shaped and becomes its parsed date, or stays text when it is no valid date; the date format is set exactly on non-empty cells of date columns below the header; all other values are kept |
| Styles.BandsKeepBorders | xlsx.py:191-198 | the band pass keeps every border side, and leaves the header row untouched |
| Styles.BandColoursDistinct | xlsx.py:31-40 | no band colour is the header's or the first column's |
| Styles.BandColoursAlternate | xlsx.py:177-187 | numeric and text bands alternate by the parity of the 1-based column number; all date columns are `F0E6FF` |
| Styles.RenderedLength | xlsx.py:206 | `len(str(value))`: 4 for `None`, the text's length, 19 for a date, and `floatLen` of a number's text |
| Styles.SeqMax | xlsx.py:204-207 | the maximum bounds every length and is reached by one; 0 for none |
| Styles.StyledLengths | xlsx.py:204-207 | the lengths are `len(str(value))` of each finished cell of the column, header included |
| Styles.StyledWidth | xlsx.py:210 | `(max_length + 2) * 1.2` in tenths: at least `2 * 12` and a whole number of characters times 12 |
| Styles.StyledWidthFits | xlsx.py:201-211 | every column is at least `(0 + 2) * 1.2` wide, leaves room for every finished cell's rendering plus two, and is exactly that for the widest cell |
| Worksheets.Worksheet.constructor | xlsx.py:238-253 | a new sheet spans the rows and the longest row (at least 1×1); cells hold the appended texts and `None` past a row's end; no widths set |
| Worksheets.Worksheet.ApplyThinBorders | xlsx.py:92-95 | pass 1 gives every cell the thin border and indent and changes nothing else |
| Worksheets.Worksheet.ApplyOuterEdges | xlsx.py:98-123 | pass 2 thickens exactly the sides that lie on the table's edge |
| Worksheets.Worksheet.StyleHeaderRow | xlsx.py:134-139 | pass 3 styles exactly the first row |
| Worksheets.Worksheet.StyleFirstColumn | xlsx.py:149-155 | pass 4 styles exactly the first column |
| Worksheets.Worksheet.IsNumericColumn | xlsx.py:159 | the loop's result is whether every present value below the header is a number |
| Worksheets.Worksheet.IsDateColumn | xlsx.py:160 | the loop's result is whether every present value below the header is date-shaped |
| Worksheets.Worksheet.ColumnKindAt | xlsx.py:159-187 | the column is classified as `Classify` says |
| Worksheets.Worksheet.CoerceColumn | xlsx.py:162-183 | coercion touches exactly the cells of the column below the header |
| Worksheets.Worksheet.FillColumn | xlsx.py:189-198 | the band fill touches exactly the cells of the column below the header, and only their fill |
| Worksheets.Worksheet.StyleColumn | xlsx.py:158-198 | one column of pass 5: its cells below the header become `BandStep` of their kind and column number |
| Worksheets.Worksheet.StyleColumnBands | xlsx.py:158-198 | pass 5 over every column |
| Worksheets.Worksheet.ColumnMaxLength | xlsx.py:202-209 | the accumulator ends at the longest rendering in the column, header included |
| Worksheets.Worksheet.FitsColumn | xlsx.py:202-210 | `w` is `(max_length + 2) * 1.2`, in tenths, for the column: every cell's rendering plus two fits in it, and the longest one fits exactly |
| Worksheets.Worksheet.SetColumnWidths | xlsx.py:201-211 | pass 6 sets the width of every column to `(max_length + 2) * 1.2`, in tenths, and keeps any other entries |
| Worksheets.Worksheet.StyleOutline | xlsx.py:91-139 | passes 1 to 3 leave every cell as the first three steps say, values untouched |
| Worksheets.Worksheet.StyleCells | xlsx.py:91-198 | passes 1 to 5 leave every cell as `StyledCell` |
| Worksheets.Worksheet.ApplyDefaultStyles | xlsx.py:86-211 | every cell ends as `StyledCell` and every column's width is `StyledWidth` |
| Worksheets.Worksheet.FitsStyledWidth | xlsx.py:201-211 | on a finished sheet, the only width that fits a column is `StyledWidth` |
| Worksheets.RowsOfNonEmpty | xlsx.py:246-250 | every row the row loop builds holds at least one cell |
| Worksheets.StyledFrom | xlsx.py:252-255 | a sheet is the grid built from the rows: `Height` by `Width`, with every cell `StyledCell` |
| Worksheets.SizedFrom | xlsx.py:201-211 | a sheet's columns 1 to its width have exactly the widths `StyledWidth` gives, and no other width is set |
| Worksheets.BuiltFrom | xlsx.py:237-255 | a sheet built from a parsed sheet: its title, every styled cell and every column width |
| Worksheets.GenerateSheet | xlsx.py:238-255 | one sheet: titled by its name, rows built and appended, styled and sized as `StyledCell` and `StyledWidth` say |
| Worksheets.GenerateSheets | xlsx.py:237-255 | one new sheet per parsed sheet, in order, each titled, styled and sized as `BuiltFrom` says |
| Worksheets.GenerateWorkbook | xlsx.py:230-255 | one new sheet per block of the input, in order, titled by the block's sheet name, with every cell `StyledCell` and every column width `StyledWidth` of the rows of the block's data lines |

## Left out

- Reading the input file, creating and saving the workbook, removing its default sheet, and the `__main__` block (xlsx.py:47-48, 233-235, 257-271): I/O and library calls. `GenerateWorkbook` takes the text already read and returns the sheets.
- `json.loads` (xlsx.py:216) is the parameter `loads`. It gives `None` where it raises `JSONDecodeError`. Python's `str()` of a non-string JSON value is the abstract text `JOther(rendering)`.
- Float values: a coerced number is the tag `Num(text)`, and the length of `str(float(text))` is the parameter `floatLen`. `str()` of a date is its 19-character `YYYY-MM-DD HH:MM:SS` form.
- Cells.IsNumber: ASCII digits only. `float()` also accepts other Unicode decimal digits, which the model treats as no number.
- Cells.IsDate: `\d` is read as an ASCII digit only. Python's `re` also matches other Unicode decimal digits, so a token such as `２０２４-01-02` (full-width digits) is date-shaped in Python but not here. A column of such tokens is classified differently: Python makes it a date column (date band, date format, parsed where valid), the model a text column.
- Cells.ParseDate: only ASCII digits are read in `%Y` and `%d`. Python's `strptime` also accepts other Unicode decimal digits there, so `２０２４-01-02` becomes a date in Python and stays text here.
- Cells.Strptime: only the fixed-width shapes are parsed (other inputs give `None`). `strptime` also accepts shorter fields such as `2024-1-5`, but coercion only ever gets date-shaped texts, as `StyledValue` shows.
- openpyxl's truncation of cell strings to 32,767 characters (which also caps the lengths the width loop sees), and its handling of titles (renaming a duplicate `Sheet1`, rejecting invalid names), of illegal characters in cell text, of `=` texts as formulas, and the meaning of `FORMAT_DATE_YYYYMMDD2`. These are library internals; the date format is a flag.
- Worksheets.Worksheet.constructor: it requires every row to hold at least one cell. That is true of every row `generate_xlsx` builds (`RowsOfNonEmpty`), and appending an empty row is not modelled.
- `ws.append` is folded into the constructor rather than being a loop of its own.
- Border colours: a side records only whether it is black (`create_border`) or has the default colour (the edge sides of pass 2). Fonts record only bold, and alignments only the three combinations the code uses.
- Column widths: letters are 1-based numbers, and widths are integers in tenths of a character (`(L + 2) * 12`).
- The `try`/`except` around the length in the width loop (xlsx.py:205-209) never fires on these values, so it is not modelled.
