/**
 * The cell classifiers of the converter: the date-shape test `is_date`, the
 * numeric test `is_number` (whether Python's `float()` accepts the text),
 * the unwrapping of `{...}` JSON cell descriptors (`process_cell_data`), and
 * the `datetime.strptime` calendar parse used to coerce date cells.
 */
module Cells {
  import opened Wrappers
  import opened Text

  // ---------------------------------------------------------------------------
  // is_date: a full match against one of three fixed-width patterns

  /** One position of a fixed-width regular expression: `\d` or a literal character. */
  datatype PatternItem = AnyDigit | Literal(c: char)

  predicate ItemMatches(p: PatternItem, c: char) {
    match p
    case AnyDigit => IsDigit(c)
    case Literal(l) => c == l
  }

  /** `re.fullmatch(p, s)` for a pattern made of single positions. */
  predicate FullMatch(p: seq<PatternItem>, s: string) {
    |p| == |s| && forall k :: 0 <= k < |s| ==> ItemMatches(p[k], s[k])
  }

  /** `\d{4}-\d{2}-\d{2}` */
  const IsoPattern: seq<PatternItem> :=
    [AnyDigit, AnyDigit, AnyDigit, AnyDigit, Literal('-'), AnyDigit, AnyDigit, Literal('-'), AnyDigit, AnyDigit]

  /** `\d{2}/\d{2}/\d{4}` */
  const SlashPattern: seq<PatternItem> :=
    [AnyDigit, AnyDigit, Literal('/'), AnyDigit, AnyDigit, Literal('/'), AnyDigit, AnyDigit, AnyDigit, AnyDigit]

  /** `\d{2}\.\d{2}\.\d{4}` */
  const DotPattern: seq<PatternItem> :=
    [AnyDigit, AnyDigit, Literal('.'), AnyDigit, AnyDigit, Literal('.'), AnyDigit, AnyDigit, AnyDigit, AnyDigit]

  /** The patterns `is_date` tries, in order. */
  const DateFormats: seq<seq<PatternItem>> := [IsoPattern, SlashPattern, DotPattern]

  predicate AllDigits(s: string) {
    forall k :: 0 <= k < |s| ==> IsDigit(s[k])
  }

  /**
   * `YYYY-MM-DD`, the shape of the ISO 8601 calendar date in extended format
   * (section 5.2.1.1 of ISO 8601:2004); no calendar check.
   */
  predicate IsoShaped(s: string) {
    |s| == 10 && AllDigits(s[..4]) && s[4] == '-' && AllDigits(s[5..7]) && s[7] == '-' && AllDigits(s[8..])
  }

  /** Two digits, `sep`, two digits, `sep`, four digits; no calendar check. */
  predicate YearLastShaped(s: string, sep: char) {
    |s| == 10 && AllDigits(s[..2]) && s[2] == sep && AllDigits(s[3..5]) && s[5] == sep && AllDigits(s[6..])
  }

  /** The texts `is_date` accepts: exactly one of the three shapes, nothing more. */
  predicate DateShaped(s: string) {
    IsoShaped(s) || YearLastShaped(s, '/') || YearLastShaped(s, '.')
  }

  lemma IsoPatternShape(s: string)
    ensures FullMatch(IsoPattern, s) <==> IsoShaped(s)
  {
    if FullMatch(IsoPattern, s) {
      assert forall k :: 0 <= k < 4 ==> s[..4][k] == s[k] && IsoPattern[k] == AnyDigit;
      assert forall k :: 0 <= k < 2 ==> s[5..7][k] == s[5 + k] && IsoPattern[5 + k] == AnyDigit;
      assert forall k :: 0 <= k < 2 ==> s[8..][k] == s[8 + k] && IsoPattern[8 + k] == AnyDigit;
      assert ItemMatches(IsoPattern[4], s[4]) && ItemMatches(IsoPattern[7], s[7]);
    }
    if IsoShaped(s) {
      forall k | 0 <= k < |s| ensures ItemMatches(IsoPattern[k], s[k]) {
        if k < 4 { assert s[..4][k] == s[k]; }
        else if 5 <= k < 7 { assert s[5..7][k - 5] == s[k]; }
        else if 8 <= k { assert s[8..][k - 8] == s[k]; }
      }
    }
  }

  lemma YearLastPatternShape(p: seq<PatternItem>, sep: char, s: string)
    requires p == [AnyDigit, AnyDigit, Literal(sep), AnyDigit, AnyDigit, Literal(sep), AnyDigit, AnyDigit, AnyDigit, AnyDigit]
    ensures FullMatch(p, s) <==> YearLastShaped(s, sep)
  {
    if FullMatch(p, s) {
      assert forall k :: 0 <= k < 2 ==> s[..2][k] == s[k] && p[k] == AnyDigit;
      assert forall k :: 0 <= k < 2 ==> s[3..5][k] == s[3 + k] && p[3 + k] == AnyDigit;
      assert forall k :: 0 <= k < 4 ==> s[6..][k] == s[6 + k] && p[6 + k] == AnyDigit;
      assert ItemMatches(p[2], s[2]) && ItemMatches(p[5], s[5]);
    }
    if YearLastShaped(s, sep) {
      forall k | 0 <= k < |s| ensures ItemMatches(p[k], s[k]) {
        if k < 2 { assert s[..2][k] == s[k]; }
        else if 3 <= k < 5 { assert s[3..5][k - 3] == s[k]; }
        else if 6 <= k { assert s[6..][k - 6] == s[k]; }
      }
    }
  }

  /** The pattern at position `k` of `DateFormats` accepts exactly the `k`-th shape. */
  lemma DateFormatShape(k: nat, s: string)
    requires k < |DateFormats|
    ensures FullMatch(DateFormats[k], s) <==>
            if k == 0 then IsoShaped(s) else if k == 1 then YearLastShaped(s, '/') else YearLastShaped(s, '.')
  {
    if k == 0 {
      IsoPatternShape(s);
    } else if k == 1 {
      YearLastPatternShape(SlashPattern, '/', s);
    } else {
      YearLastPatternShape(DotPattern, '.', s);
    }
  }

  /** `is_date(value)`: tries the three patterns in order and stops at the first full match. */
  method IsDate(value: string) returns (matched: bool)
    ensures matched <==> DateShaped(value)
  {
    for k := 0 to |DateFormats|
      invariant forall t :: 0 <= t < k ==> !FullMatch(DateFormats[t], value)
    {
      if FullMatch(DateFormats[k], value) {
        DateFormatShape(k, value);
        return true;
      }
    }
    DateFormatShape(0, value);
    DateFormatShape(1, value);
    DateFormatShape(2, value);
    return false;
  }

  /** A date-shaped text is exactly ten characters long: longer or shorter texts around it are not dates. */
  lemma DateShapedExact(s: string, extra: string)
    requires DateShaped(s) && extra != []
    ensures !DateShaped(s + extra) && !DateShaped(extra + s)
    ensures forall i, j :: 0 <= i <= j <= |s| && j - i < |s| ==> !DateShaped(s[i..j])
  {
  }

  /** The shape test does not look at the calendar. */
  lemma DateShapeIgnoresCalendar()
    ensures DateShaped("9999-99-99") && DateShaped("00/00/0000") && DateShaped("31.02.2023")
  {
    assert AllDigits("9999-99-99"[..4]) && AllDigits("9999-99-99"[5..7]) && AllDigits("9999-99-99"[8..]);
    assert AllDigits("00/00/0000"[..2]) && AllDigits("00/00/0000"[3..5]) && AllDigits("00/00/0000"[6..]);
    assert AllDigits("31.02.2023"[..2]) && AllDigits("31.02.2023"[3..5]) && AllDigits("31.02.2023"[6..]);
  }

  /** Every character of a date-shaped text is a digit or one of its separators. */
  lemma DateShapedChars(s: string)
    requires DateShaped(s)
    ensures forall k :: 0 <= k < |s| ==> IsDigit(s[k]) || s[k] == '-' || s[k] == '/' || s[k] == '.'
  {
    forall k | 0 <= k < |s| ensures IsDigit(s[k]) || s[k] == '-' || s[k] == '/' || s[k] == '.' {
      if IsoShaped(s) {
        if k < 4 { assert s[..4][k] == s[k]; }
        else if 5 <= k < 7 { assert s[5..7][k - 5] == s[k]; }
        else if 8 <= k { assert s[8..][k - 8] == s[k]; }
      } else {
        if k < 2 { assert s[..2][k] == s[k]; }
        else if 3 <= k < 5 { assert s[3..5][k - 3] == s[k]; }
        else if 6 <= k { assert s[6..][k - 6] == s[k]; }
      }
    }
  }

  // ---------------------------------------------------------------------------
  // is_number: whether Python's float() accepts the text

  /** `c.lower()` for ASCII letters, the only case folding float() applies. */
  function Lower(c: char): char {
    if 'A' <= c <= 'Z' then (c as int + 32) as char else c
  }

  /**
   * The whitespace `float()` strips around a number: every character
   * `str.isspace()` counts except the ASCII separators U+001C to U+001F, which
   * `float()` keeps as they are and then rejects.
   */
  predicate FloatSpace(c: char) {
    IsSpace(c) && !(0x1C <= c as int <= 0x1F)
  }

  predicate IsSign(c: char) {
    c == '+' || c == '-'
  }

  /**
   * Where a left-to-right reading of a text stands against the syntax
   * `float()` accepts: optional `FloatSpace` whitespace, then
   * `[sign] (floatnumber | "inf" | "infinity" | "nan")` with the words in any
   * case, `floatnumber ::= number [exponent]`,
   * `number ::= [digitpart] "." digitpart | digitpart ["."]`,
   * `exponent ::= ("e" | "E") [sign] digitpart` and
   * `digitpart ::= digit (["_"] digit)*`, then optional `FloatSpace` whitespace.
   */
  datatype ScanState =
    | Leading            // whitespace only
    | Signed             // a sign
    | Word(seen: string) // a sign-less, lower-cased, non-empty prefix of "infinity" or "nan"
    | IntDigits          // a digitpart
    | IntUnderscore      // a digitpart and `_`
    | LonePoint          // `.` without digits before it
    | Point              // a digitpart and `.`
    | FracDigits         // a number ending in its fraction's digitpart
    | FracUnderscore     // the same followed by `_`
    | ExpMark            // a number and `e`
    | ExpSign            // a number, `e` and a sign
    | ExpDigits          // a complete floatnumber with an exponent
    | ExpUnderscore      // the same followed by `_`
    | Trailing           // a complete value and whitespace
    | Reject             // no continuation is accepted

  predicate IsWordPrefix(seen: string) {
    StartsWith("infinity", seen) || StartsWith("nan", seen)
  }

  predicate IsWord(seen: string) {
    seen == "inf" || seen == "infinity" || seen == "nan"
  }

  /** The states after which the text read so far is a complete value. */
  predicate Accepting(st: ScanState) {
    match st
    case IntDigits => true
    case Point => true
    case FracDigits => true
    case ExpDigits => true
    case Trailing => true
    case Word(seen) => IsWord(seen)
    case _ => false
  }

  /** The state after reading one more character `c`. */
  function Step(st: ScanState, c: char): ScanState {
    match st
    case Leading =>
      if FloatSpace(c) then Leading
      else if IsSign(c) then Signed
      else if IsDigit(c) then IntDigits
      else if c == '.' then LonePoint
      else if IsWordPrefix([Lower(c)]) then Word([Lower(c)])
      else Reject
    case Signed =>
      if IsDigit(c) then IntDigits
      else if c == '.' then LonePoint
      else if IsWordPrefix([Lower(c)]) then Word([Lower(c)])
      else Reject
    case Word(seen) =>
      if IsWordPrefix(seen + [Lower(c)]) then Word(seen + [Lower(c)])
      else if IsWord(seen) && FloatSpace(c) then Trailing
      else Reject
    case IntDigits =>
      if IsDigit(c) then IntDigits
      else if c == '_' then IntUnderscore
      else if c == '.' then Point
      else if c == 'e' || c == 'E' then ExpMark
      else if FloatSpace(c) then Trailing
      else Reject
    case IntUnderscore => if IsDigit(c) then IntDigits else Reject
    case LonePoint => if IsDigit(c) then FracDigits else Reject
    case Point =>
      if IsDigit(c) then FracDigits
      else if c == 'e' || c == 'E' then ExpMark
      else if FloatSpace(c) then Trailing
      else Reject
    case FracDigits =>
      if IsDigit(c) then FracDigits
      else if c == '_' then FracUnderscore
      else if c == 'e' || c == 'E' then ExpMark
      else if FloatSpace(c) then Trailing
      else Reject
    case FracUnderscore => if IsDigit(c) then FracDigits else Reject
    case ExpMark =>
      if IsSign(c) then ExpSign
      else if IsDigit(c) then ExpDigits
      else Reject
    case ExpSign => if IsDigit(c) then ExpDigits else Reject
    case ExpDigits =>
      if IsDigit(c) then ExpDigits
      else if c == '_' then ExpUnderscore
      else if FloatSpace(c) then Trailing
      else Reject
    case ExpUnderscore => if IsDigit(c) then ExpDigits else Reject
    case Trailing => if FloatSpace(c) then Trailing else Reject
    case Reject => Reject
  }

  /** The state after reading all of `s` from `st`. */
  function Run(s: string, st: ScanState): ScanState {
    if s == [] then st else Run(s[1..], Step(st, s[0]))
  }

  /** `is_number(value)`: `float(value)` succeeds. */
  predicate IsNumber(value: string) {
    Accepting(Run(value, Leading))
  }

  /** Reading a text is reading its first part, then the rest. */
  lemma {:induction false} RunAppend(a: string, b: string, st: ScanState)
    ensures Run(a + b, st) == Run(b, Run(a, st))
    decreases |a|
  {
    if a == [] {
      assert a + b == b;
    } else {
      assert (a + b)[0] == a[0] && (a + b)[1..] == a[1..] + b;
      RunAppend(a[1..], b, Step(st, a[0]));
    }
  }

  /** Once rejected, a text stays rejected however it goes on. */
  lemma {:induction false} RejectFinal(s: string)
    ensures Run(s, Reject) == Reject
    decreases |s|
  {
    if s != [] {
      RejectFinal(s[1..]);
    }
  }

  /** Reading from index `i` is reading `s[i]`, then the rest. */
  lemma RunAt(s: string, i: nat, st: ScanState)
    requires i < |s|
    ensures Run(s[i..], st) == Run(s[i + 1..], Step(st, s[i]))
  {
    assert s[i..][0] == s[i] && s[i..][1..] == s[i + 1..];
  }

  /** A run that passes through `trace`, one state per character read, ends in its last state. */
  lemma {:induction false} RunTrace(s: string, trace: seq<ScanState>)
    requires |trace| == |s| + 1
    requires forall k :: 0 <= k < |s| ==> Step(trace[k], s[k]) == trace[k + 1]
    ensures Run(s, trace[0]) == trace[|s|]
    decreases |s|
  {
    if s != [] {
      assert forall k :: 0 <= k < |s| - 1 ==> s[1..][k] == s[k + 1] && trace[1..][k] == trace[k + 1];
      RunTrace(s[1..], trace[1..]);
    }
  }

  /** A text that is rejected at index `i` is no number. */
  lemma RejectedAt(s: string, i: nat, st: ScanState)
    requires i < |s| && Run(s[i..], st) == Run(s[i + 1..], Reject)
    ensures Run(s[i..], st) == Reject
  {
    RejectFinal(s[i + 1..]);
  }

  /** Reading whitespace from the start, or after a rejection, never reaches a complete value. */
  lemma {:induction false} BlankRun(s: string, st: ScanState)
    requires st == Leading || st == Reject
    requires forall k :: 0 <= k < |s| ==> IsSpace(s[k])
    ensures Run(s, st) == Leading || Run(s, st) == Reject
    decreases |s|
  {
    if s != [] {
      var c := s[0];
      assert IsSpace(c);
      if st == Leading && !FloatSpace(c) {
        assert Lower(c) == c && !IsSign(c) && !IsDigit(c) && c != '.';
        assert !IsWordPrefix([c]) by {
          assert "infinity"[..1] == "i" && "nan"[..1] == "n";
        }
      }
      assert forall k :: 0 <= k < |s| - 1 ==> s[1..][k] == s[k + 1];
      BlankRun(s[1..], Step(st, c));
    }
  }

  /** `float()` fails on empty and all-whitespace texts. */
  lemma BlankNotNumber(s: string)
    requires forall k :: 0 <= k < |s| ==> IsSpace(s[k])
    ensures !IsNumber(s)
  {
    BlankRun(s, Leading);
  }

  /** `float()` does not strip the ASCII separators that `str.isspace()` counts: `"\x1c1"` is no number. */
  lemma SeparatorExample()
    ensures !IsNumber([0x1C as char, '1'])
  {
    var s := [0x1C as char, '1'];
    assert !FloatSpace(s[0]) && Lower(s[0]) == s[0];
    assert !IsWordPrefix([s[0]]) by {
      assert "infinity"[..1] == "i" && "nan"[..1] == "n";
    }
    RunTrace(s, [Leading, Reject, Reject]);
  }

  /** A formula (text starting with `=`) is never a number. */
  lemma FormulaNotNumber(s: string)
    requires StartsWith(s, "=")
    ensures !IsNumber(s)
  {
    assert s[0] == '=';
    PrintableNotSpace('=');
    assert !IsWordPrefix([Lower('=')]) by {
      assert "infinity"[..1] != "=" && "nan"[..1] != "=";
    }
    assert Step(Leading, s[0]) == Reject;
    RunAt(s, 0, Leading);
    assert s[0..] == s;
    RejectedAt(s, 0, Leading);
  }

  /** Reading two digits from a state that reads digits as the integer part. */
  lemma RunDigits(s: string, i: nat, st: ScanState)
    requires i + 1 < |s| && IsDigit(s[i]) && IsDigit(s[i + 1])
    requires st == Leading || st == IntDigits
    ensures Run(s[i..], st) == Run(s[i + 2..], IntDigits)
  {
    PrintableNotSpace(s[i]);
    PrintableNotSpace(s[i + 1]);
    RunAt(s, i, st);
    RunAt(s, i + 1, IntDigits);
  }

  /** `DDDD-…`: the scanner rejects at the first `-`. */
  lemma IsoNotNumber(s: string)
    requires |s| > 4 && IsDigit(s[0]) && IsDigit(s[1]) && IsDigit(s[2]) && IsDigit(s[3]) && s[4] == '-'
    ensures !IsNumber(s)
  {
    assert s[0..] == s;
    RunDigits(s, 0, Leading);
    RunDigits(s, 2, IntDigits);
    PrintableNotSpace(s[4]);
    RunAt(s, 4, IntDigits);
    RejectedAt(s, 4, IntDigits);
  }

  /** `DD/…`: the scanner rejects at the first `/`. */
  lemma SlashNotNumber(s: string)
    requires |s| > 2 && IsDigit(s[0]) && IsDigit(s[1]) && s[2] == '/'
    ensures !IsNumber(s)
  {
    assert s[0..] == s;
    RunDigits(s, 0, Leading);
    PrintableNotSpace(s[2]);
    RunAt(s, 2, IntDigits);
    RejectedAt(s, 2, IntDigits);
  }

  /** `DD.DD.…`: `DD.DD` reads as a fraction, and the scanner rejects at the second `.`. */
  lemma DotNotNumber(s: string)
    requires |s| > 5 && IsDigit(s[0]) && IsDigit(s[1]) && s[2] == '.' && IsDigit(s[3]) && IsDigit(s[4]) && s[5] == '.'
    ensures !IsNumber(s)
  {
    assert s[0..] == s;
    RunDigits(s, 0, Leading);
    PrintableNotSpace(s[2]);
    RunAt(s, 2, IntDigits);
    PrintableNotSpace(s[3]);
    RunAt(s, 3, Point);
    PrintableNotSpace(s[4]);
    RunAt(s, 4, FracDigits);
    PrintableNotSpace(s[5]);
    RunAt(s, 5, FracDigits);
    RejectedAt(s, 5, FracDigits);
  }

  /** Dates in any of the three shapes are never numbers (`float("2024-01-02")` fails). */
  lemma DateShapedNotNumber(s: string)
    requires DateShaped(s)
    ensures !IsNumber(s)
  {
    assert s[..2][0] == s[0] && s[..2][1] == s[1];
    if IsoShaped(s) {
      assert s[..4][2] == s[2] && s[..4][3] == s[3];
      assert s[..4][0] == s[0] && s[..4][1] == s[1];
      IsoNotNumber(s);
    } else if YearLastShaped(s, '/') {
      SlashNotNumber(s);
    } else {
      assert s[3..5][0] == s[3] && s[3..5][1] == s[4];
      DotNotNumber(s);
    }
  }

  /** `float()` accepts plain digits. */
  lemma DigitsExample()
    ensures IsNumber("10")
  {
    PrintableNotSpace('1');
    PrintableNotSpace('0');
  }

  /** `float()` accepts a signed fraction with underscores and a signed exponent. */
  lemma NumberExample()
    ensures IsNumber("-1_0.5e+3")
  {
    PrintableNotSpace('1');
    PrintableNotSpace('0');
    PrintableNotSpace('-');
    PrintableNotSpace('_');
    PrintableNotSpace('.');
    PrintableNotSpace('5');
    PrintableNotSpace('e');
    PrintableNotSpace('+');
    PrintableNotSpace('3');
    RunTrace("-1_0.5e+3", [Leading, Signed, IntDigits, IntUnderscore, IntDigits, Point, FracDigits, ExpMark, ExpSign, ExpDigits]);
  }

  /** A point needs digits on at least one side: `.5` and `7.` are numbers, `.` is not. */
  lemma PointExamples()
    ensures IsNumber(".5") && IsNumber("7.") && !IsNumber(".")
  {
    PrintableNotSpace('.');
    PrintableNotSpace('5');
    PrintableNotSpace('7');
    RunTrace(".5", [Leading, LonePoint, FracDigits]);
    RunTrace("7.", [Leading, IntDigits, Point]);
    RunTrace(".", [Leading, LonePoint]);
  }

  /** Underscores go only between digits, and an exponent needs digits. */
  lemma NotNumberExamples()
    ensures !IsNumber("1__0") && !IsNumber("1_") && !IsNumber("1e")
  {
    PrintableNotSpace('1');
    PrintableNotSpace('0');
    PrintableNotSpace('_');
    PrintableNotSpace('e');
    RunTrace("1__0", [Leading, IntDigits, IntUnderscore, Reject, Reject]);
    RunTrace("1_", [Leading, IntDigits, IntUnderscore]);
    RunTrace("1e", [Leading, IntDigits, ExpMark]);
  }

  /** The words are read in any case and after a sign. */
  lemma InfExample()
    ensures IsNumber("-Inf")
  {
    PrintableNotSpace('-');
    PrintableNotSpace('I');
    assert Lower('I') == 'i' && Lower('n') == 'n' && Lower('f') == 'f';
    assert IsWordPrefix("i") && IsWordPrefix("in") && IsWordPrefix("inf") && IsWord("inf");
    assert "i" + "n" == "in" && "in" + "f" == "inf";
    RunTrace("-Inf", [Leading, Signed, Word("i"), Word("in"), Word("inf")]);
  }

  /** A word may be surrounded by whitespace. */
  lemma NanExample()
    ensures IsNumber(" nan\t")
  {
    PrintableNotSpace('n');
    assert FloatSpace(' ') && FloatSpace('\t');
    assert Lower('n') == 'n' && Lower('a') == 'a' && Lower('\t') == '\t';
    assert IsWordPrefix("n") && IsWordPrefix("na") && IsWordPrefix("nan") && IsWord("nan");
    assert "n" + "a" == "na" && "na" + "n" == "nan";
    var tabbed := "nan" + "\t";
    assert !IsWordPrefix(tabbed) by {
      assert tabbed[0] == 'n' && |tabbed| == 4;
      assert "infinity"[..4][0] == 'i';
    }
    RunTrace(" nan\t", [Leading, Leading, Word("n"), Word("na"), Word("nan"), Trailing]);
  }

  /** A word cut short is no number. */
  lemma ClippedWordExample()
    ensures !IsNumber("na")
  {
    PrintableNotSpace('n');
    assert Lower('n') == 'n' && Lower('a') == 'a';
    assert IsWordPrefix("n") && IsWordPrefix("na");
    assert "n" + "a" == "na";
    assert !IsWord("na") by {
      assert |"na"| == 2 && |"inf"| == 3 && |"infinity"| == 8 && |"nan"| == 3;
    }
    RunTrace("na", [Leading, Word("n"), Word("na")]);
  }

  // ---------------------------------------------------------------------------
  // process_cell_data: unwrapping `{...}` JSON descriptors

  /**
   * A decoded JSON value: a string, or any other value represented by the text
   * Python's `str()` gives it (`"42"`, `"True"`, `"None"`, ...).
   */
  datatype JsonValue = JString(text: string) | JOther(rendering: string)

  /** A decoded JSON object; a key given twice keeps its last value, as `json.loads` does. */
  type JsonObject = map<string, JsonValue>

  /**
   * `json.loads` applied to a token that starts with `{` and ends with `}`:
   * the decoded object, or `None` where it raises `JSONDecodeError`.
   */
  type JsonLoads = string -> Option<JsonObject>

  predicate IsDescriptor(token: string) {
    StartsWith(token, "{") && EndsWith(token, "}")
  }

  /** `process_cell_data(cell_data)`: the text a token puts into its cell. */
  function ProcessCellData(cellData: string, loads: JsonLoads): (r: string)
    ensures !IsDescriptor(cellData) ==> r == cellData
    ensures loads(cellData) == None ==> r == cellData
    ensures IsDescriptor(cellData) && loads(cellData).Some? && "value" !in loads(cellData).value ==> r == ""
    ensures IsDescriptor(cellData) && loads(cellData).Some? && "value" in loads(cellData).value ==>
              r == match loads(cellData).value["value"]
                   case JString(text) => text
                   case JOther(rendering) => rendering
    ensures r != cellData ==> IsDescriptor(cellData) && loads(cellData).Some?
  {
    if IsDescriptor(cellData) then
      match loads(cellData)
      case None => cellData
      case Some(cellInfo) =>
        var value := if "value" in cellInfo then cellInfo["value"] else JString("");
        match value
        case JString(text) =>
          if StartsWith(text, "=") then text
          else if DateShaped(text) then text
          else text
        case JOther(rendering) => rendering
    else
      cellData
  }

  /**
   * A descriptor whose `value` is a string gives the same cell text as that
   * string written bare, when the string is not itself a descriptor.
   */
  lemma DescriptorActsAsBareValue(token: string, text: string, loads: JsonLoads)
    requires IsDescriptor(token) && loads(token) == Some(map["value" := JString(text)])
    requires !IsDescriptor(text)
    ensures ProcessCellData(token, loads) == ProcessCellData(text, loads) == text
  {
  }

  // ---------------------------------------------------------------------------
  // datetime.strptime on the three date formats

  datatype Date = Date(year: int, month: int, day: int)

  predicate IsLeapYear(y: int) {
    y % 4 == 0 && (y % 100 != 0 || y % 400 == 0)
  }

  function DaysInMonth(y: int, m: int): (n: int)
    requires 1 <= m <= 12
    ensures 28 <= n <= 31
    ensures n == 29 <==> m == 2 && IsLeapYear(y)
  {
    if m == 2 then (if IsLeapYear(y) then 29 else 28)
    else if m == 4 || m == 6 || m == 9 || m == 11 then 30
    else 31
  }

  /** The dates `datetime` can hold: years 1 to 9999 of the proleptic Gregorian calendar. */
  predicate ValidDate(d: Date) {
    1 <= d.year <= 9999 && 1 <= d.month <= 12 && 1 <= d.day <= DaysInMonth(d.year, d.month)
  }

  /** The decimal value of a text of ASCII digits. */
  function DigitsValue(s: string): nat
    requires AllDigits(s)
  {
    if s == [] then 0 else DigitsValue(s[..|s| - 1]) * 10 + (s[|s| - 1] as int - '0' as int)
  }

  lemma DigitsValueOfTwo(s: string)
    requires |s| == 2 && AllDigits(s)
    ensures DigitsValue(s) == (s[0] as int - '0' as int) * 10 + (s[1] as int - '0' as int)
  {
    var t := s[..1];
    assert AllDigits(t) && t[..0] == [] && t[0] == s[0];
    assert DigitsValue(t) == DigitsValue(t[..0]) * 10 + (t[0] as int - '0' as int);
    assert DigitsValue(s) == DigitsValue(t) * 10 + (s[1] as int - '0' as int);
  }

  lemma DigitsValueOfFour(s: string)
    requires |s| == 4 && AllDigits(s)
    ensures DigitsValue(s) == DigitsValue(s[..2]) * 100 + DigitsValue(s[2..])
  {
    var a, b := s[..2], s[2..];
    assert s[..3] == a + [s[2]];
    assert s[..3][..2] == a;
    DigitsValueOfTwo(b);
    assert b[0] == s[2] && b[1] == s[3];
  }

  /** The three formats coercion tries: `%Y-%m-%d`, `%d/%m/%Y`, `%d.%m.%Y`. */
  datatype DateFormat = YearMonthDay | DaySlashMonthSlashYear | DayDotMonthDotYear

  function Checked(d: Date): (r: Option<Date>)
    ensures r.Some? <==> ValidDate(d)
    ensures r.Some? ==> r.value == d
  {
    if ValidDate(d) then Some(d) else None
  }

  /**
   * `datetime.strptime(s, format)` on the fixed-width shapes: `None` where it
   * raises `ValueError`, that is where the text does not have the format's
   * shape or its fields are not a valid calendar date.
   */
  function Strptime(s: string, format: DateFormat): (r: Option<Date>)
    ensures r.Some? ==> ValidDate(r.value)
  {
    match format
    case YearMonthDay =>
      if IsoShaped(s) then Checked(Date(DigitsValue(s[..4]), DigitsValue(s[5..7]), DigitsValue(s[8..]))) else None
    case DaySlashMonthSlashYear =>
      if YearLastShaped(s, '/') then Checked(Date(DigitsValue(s[6..]), DigitsValue(s[3..5]), DigitsValue(s[..2]))) else None
    case DayDotMonthDotYear =>
      if YearLastShaped(s, '.') then Checked(Date(DigitsValue(s[6..]), DigitsValue(s[3..5]), DigitsValue(s[..2]))) else None
  }

  /**
   * The coercion chain of a date column: `%Y-%m-%d`, else `%d/%m/%Y`, else
   * `%d.%m.%Y`; `None` when all three raise.
   */
  function ParseDate(s: string): (r: Option<Date>)
    ensures r.Some? ==> ValidDate(r.value) && DateShaped(s)
    ensures IsoShaped(s) ==> r == Checked(Date(DigitsValue(s[..4]), DigitsValue(s[5..7]), DigitsValue(s[8..])))
    ensures YearLastShaped(s, '/') ==> r == Checked(Date(DigitsValue(s[6..]), DigitsValue(s[3..5]), DigitsValue(s[..2])))
    ensures YearLastShaped(s, '.') ==> r == Checked(Date(DigitsValue(s[6..]), DigitsValue(s[3..5]), DigitsValue(s[..2])))
    ensures !DateShaped(s) ==> r == None
  {
    match Strptime(s, YearMonthDay)
    case Some(d) => Some(d)
    case None =>
      match Strptime(s, DaySlashMonthSlashYear)
      case Some(d) => Some(d)
      case None => Strptime(s, DayDotMonthDotYear)
  }

  /**
   * Slash dates are read day first: `01/02/2024` is the first of February, and
   * `12/31/2024` (month first) is no date at all.
   */
  lemma SlashDatesAreDayFirst()
    ensures ParseDate("01/02/2024") == Some(Date(2024, 2, 1))
    ensures ParseDate("12/31/2024") == None
  {
    YearLastFields("01/02/2024", '/', "01", "02", "2024");
    YearLastFields("12/31/2024", '/', "12", "31", "2024");
    Year2024();
    assert DigitsValue("01") == 1 by { DigitsValueOfTwo("01"); }
    assert DigitsValue("02") == 2 by { DigitsValueOfTwo("02"); }
    assert DigitsValue("31") == 31 by { DigitsValueOfTwo("31"); }
    assert ValidDate(Date(2024, 2, 1)) && !ValidDate(Date(2024, 31, 12));
  }

  /** The three fields of a year-last text. */
  lemma YearLastFields(s: string, sep: char, dd: string, mm: string, yyyy: string)
    requires AllDigits(dd) && AllDigits(mm) && AllDigits(yyyy) && |dd| == 2 && |mm| == 2 && |yyyy| == 4
    requires s == dd + [sep] + mm + [sep] + yyyy
    ensures YearLastShaped(s, sep) && s[..2] == dd && s[3..5] == mm && s[6..] == yyyy
  {
    assert s[..2] == dd && s[3..5] == mm && s[6..] == yyyy;
  }

  /** The three fields of an ISO-shaped text. */
  lemma IsoFields(s: string, yyyy: string, mm: string, dd: string)
    requires AllDigits(dd) && AllDigits(mm) && AllDigits(yyyy) && |dd| == 2 && |mm| == 2 && |yyyy| == 4
    requires s == yyyy + "-" + mm + "-" + dd
    ensures IsoShaped(s) && s[..4] == yyyy && s[5..7] == mm && s[8..] == dd
  {
    assert s[..4] == yyyy && s[5..7] == mm && s[8..] == dd;
  }

  lemma Year2024()
    ensures DigitsValue("2024") == 2024
  {
    DigitsValueOfFour("2024");
    assert "2024"[..2] == "20" && "2024"[2..] == "24";
    DigitsValueOfTwo("20");
    DigitsValueOfTwo("24");
  }

  /** February 29 is a date in the leap year 2024. */
  lemma LeapDayExample()
    ensures ParseDate("2024-02-29") == Some(Date(2024, 2, 29))
  {
    IsoFields("2024-02-29", "2024", "02", "29");
    Year2024();
    DigitsValueOfTwo("02");
    DigitsValueOfTwo("29");
  }

  /** February 29 is no date in 2023. */
  lemma NonLeapDayExample()
    ensures ParseDate("2023-02-29") == None
  {
    IsoFields("2023-02-29", "2023", "02", "29");
    assert DigitsValue("2023") == 2023 by {
      DigitsValueOfFour("2023");
      assert "2023"[..2] == "20" && "2023"[2..] == "23";
      DigitsValueOfTwo("20");
      DigitsValueOfTwo("23");
    }
    assert DigitsValue("02") == 2 by { DigitsValueOfTwo("02"); }
    assert !ValidDate(Date(2023, 2, 29));
  }

  /** February 29 is no date in 2100, a century year that is not a multiple of 400. */
  lemma CenturyDayExample()
    ensures ParseDate("2100-02-29") == None
  {
    IsoFields("2100-02-29", "2100", "02", "29");
    assert DigitsValue("2100") == 2100 by {
      DigitsValueOfFour("2100");
      assert "2100"[..2] == "21" && "2100"[2..] == "00";
      DigitsValueOfTwo("21");
      DigitsValueOfTwo("00");
    }
    assert DigitsValue("02") == 2 by { DigitsValueOfTwo("02"); }
    assert !ValidDate(Date(2100, 2, 29));
  }

  /** Year 0 is outside what `datetime` holds. */
  lemma YearZeroExample()
    ensures ParseDate("0000-01-01") == None
  {
    IsoFields("0000-01-01", "0000", "01", "01");
    assert DigitsValue("0000") == 0 by {
      DigitsValueOfFour("0000");
      assert "0000"[..2] == "00" && "0000"[2..] == "00";
      DigitsValueOfTwo("00");
    }
    assert !ValidDate(Date(0, DigitsValue("01"), DigitsValue("01")));
  }

  /** April has 30 days, so `31.04.2024` is no date. */
  lemma ShortMonthExample()
    ensures ParseDate("31.04.2024") == None
  {
    YearLastFields("31.04.2024", '.', "31", "04", "2024");
    assert DigitsValue("31") == 31 by { DigitsValueOfTwo("31"); }
    assert DigitsValue("04") == 4 by { DigitsValueOfTwo("04"); }
    Year2024();
    assert !ValidDate(Date(2024, 4, 31));
  }
}
