/**
 * A1-style range addresses (excel/utilities.py).
 *
 * The column helpers the source imports (`column_index_from_string` and
 * `get_column_letter`) are modelled here as a bijective base-26 encoding
 * (A = 1 ... Z = 26, AA = 27) restricted to the indices 1 .. 18278, that is
 * to the names "A" .. "ZZZ"; anything else is an error, as in those helpers.
 */
module RangeAddress {
  import opened Wrappers

  /** The largest column index the column helpers accept ("ZZZ"). */
  const MaxColumn: nat := 18278

  datatype RangeError = InvalidColumnName(name: string) | InvalidColumnIndex(index: int) | EmptyShape

  // ---------------------------------------------------------------------
  // Column letters
  // ---------------------------------------------------------------------

  predicate IsLetter(c: char) { 'A' <= c <= 'Z' }

  predicate AllLetters(s: string) { forall i :: 0 <= i < |s| ==> IsLetter(s[i]) }

  /** A column name the column helpers accept: one to three upper-case letters. */
  predicate IsColumnName(s: string) { 1 <= |s| <= 3 && AllLetters(s) }

  function LetterValue(c: char): (d: nat)
    requires IsLetter(c)
    ensures 1 <= d <= 26
  {
    (c as int - 'A' as int) + 1
  }

  function Letter(d: nat): (c: char)
    requires 1 <= d <= 26
    ensures IsLetter(c) && LetterValue(c) == d
  {
    ('A' as int + d - 1) as char
  }

  /** The bijective base-26 name of column `n` (1 gives "A", 27 gives "AA"). */
  function ColumnLetters(n: nat): (s: string)
    requires n >= 1
    ensures |s| >= 1 && AllLetters(s)
  {
    if n <= 26 then [Letter(n)]
    else ColumnLetters((n - 1) / 26) + [Letter((n - 1) % 26 + 1)]
  }

  /** The column index a string of letters denotes; the empty string denotes 0. */
  function ColumnNumber(s: string): nat
    requires AllLetters(s)
  {
    if s == [] then 0 else 26 * ColumnNumber(s[..|s| - 1]) + LetterValue(s[|s| - 1])
  }

  lemma DivMod26(q: nat, r: nat)
    requires r < 26
    ensures (26 * q + r) / 26 == q && (26 * q + r) % 26 == r
  {
  }

  /** Decoding the name of a column gives back its index. */
  lemma {:induction false} NumberOfLetters(n: nat)
    requires n >= 1
    ensures ColumnNumber(ColumnLetters(n)) == n
  {
    var s := ColumnLetters(n);
    if n > 26 {
      var q, r := (n - 1) / 26, (n - 1) % 26;
      assert s[..|s| - 1] == ColumnLetters(q);
      NumberOfLetters(q);
    }
  }

  /** Encoding the index of a non-empty letter string gives back the string. */
  lemma {:induction false} LettersOfNumber(s: string)
    requires |s| >= 1 && AllLetters(s)
    ensures ColumnNumber(s) >= 1 && ColumnLetters(ColumnNumber(s)) == s
  {
    var p, d := s[..|s| - 1], LetterValue(s[|s| - 1]);
    if |s| > 1 {
      LettersOfNumber(p);
      var q := ColumnNumber(p);
      DivMod26(q, d - 1);
      assert (ColumnNumber(s) - 1) / 26 == q;
      assert (ColumnNumber(s) - 1) % 26 + 1 == d;
      assert s == p + [s[|s| - 1]];
    }
  }

  /** Names of at most one, two, three letters denote at most 26, 702, 18278. */
  lemma {:induction false} NumberBound(s: string)
    requires AllLetters(s)
    ensures |s| <= 1 ==> ColumnNumber(s) <= 26
    ensures |s| <= 2 ==> ColumnNumber(s) <= 702
    ensures |s| <= 3 ==> ColumnNumber(s) <= MaxColumn
  {
    if s != [] {
      NumberBound(s[..|s| - 1]);
    }
  }

  /** Indices up to 26, 702, 18278 have names of at most one, two, three letters. */
  lemma {:induction false} LettersLength(n: nat)
    requires n >= 1
    ensures n <= 26 ==> |ColumnLetters(n)| == 1
    ensures n <= 702 ==> |ColumnLetters(n)| <= 2
    ensures n <= MaxColumn ==> |ColumnLetters(n)| <= 3
  {
    if n > 26 {
      LettersLength((n - 1) / 26);
    }
  }

  /** Stand-in for `column_index_from_string`. */
  function ColumnIndexFromString(name: string): (r: Result<nat, RangeError>)
    ensures r.Ok? <==> IsColumnName(name)
    ensures r.Ok? ==> 1 <= r.value <= MaxColumn && ColumnLetters(r.value) == name
    ensures r.Err? ==> r.error == InvalidColumnName(name)
  {
    if IsColumnName(name) then
      LettersOfNumber(name);
      NumberBound(name);
      Ok(ColumnNumber(name))
    else
      Err(InvalidColumnName(name))
  }

  /** Stand-in for `get_column_letter`. */
  function GetColumnLetter(index: int): (r: Result<string, RangeError>)
    ensures r.Ok? <==> 1 <= index <= MaxColumn
    ensures r.Ok? ==> IsColumnName(r.value) && ColumnNumber(r.value) == index
    ensures r.Err? ==> r.error == InvalidColumnIndex(index)
  {
    if 1 <= index <= MaxColumn then
      NumberOfLetters(index);
      LettersLength(index);
      Ok(ColumnLetters(index))
    else
      Err(InvalidColumnIndex(index))
  }

  // ---------------------------------------------------------------------
  // Row numbers: Python's decimal rendering of an int, and its inverse
  // ---------------------------------------------------------------------

  predicate IsDigit(c: char) { '0' <= c <= '9' }

  predicate AllDigits(s: string) { forall i :: 0 <= i < |s| ==> IsDigit(s[i]) }

  function DigitChar(d: nat): (c: char)
    requires d < 10
    ensures IsDigit(c)
  {
    ('0' as int + d) as char
  }

  function NatToDecimal(n: nat): (s: string)
    ensures |s| >= 1 && AllDigits(s)
  {
    if n < 10 then [DigitChar(n)] else NatToDecimal(n / 10) + [DigitChar(n % 10)]
  }

  /** `str(i)` for a Python int: an optional minus sign, then decimal digits. */
  function IntToDecimal(i: int): (s: string)
    ensures |s| >= 1 && (IsDigit(s[0]) || s[0] == '-')
  {
    if i < 0 then "-" + NatToDecimal(-i) else NatToDecimal(i)
  }

  function DecimalValue(s: string): nat
    requires AllDigits(s)
  {
    if s == [] then 0 else 10 * DecimalValue(s[..|s| - 1]) + (s[|s| - 1] as int - '0' as int)
  }

  function ParseInt(s: string): Option<int>
  {
    if |s| >= 2 && s[0] == '-' && AllDigits(s[1..]) then Some(-(DecimalValue(s[1..]) as int))
    else if |s| >= 1 && AllDigits(s) then Some(DecimalValue(s))
    else None
  }

  lemma {:induction false} DecimalRoundTrip(n: nat)
    ensures DecimalValue(NatToDecimal(n)) == n
  {
    if n >= 10 {
      var s := NatToDecimal(n);
      assert s[..|s| - 1] == NatToDecimal(n / 10);
      DecimalRoundTrip(n / 10);
    }
  }

  /** Reading back the decimal rendering of a row number gives the row number. */
  lemma ParseIntOfDecimal(i: int)
    ensures ParseInt(IntToDecimal(i)) == Some(i)
  {
    if i < 0 {
      var s := IntToDecimal(i);
      assert s == "-" + NatToDecimal(-i);
      assert s[1..] == NatToDecimal(-i);
      assert |s| >= 2 && s[0] == '-' && AllDigits(s[1..]);
      DecimalRoundTrip(-i);
    } else {
      var s := IntToDecimal(i);
      assert s == NatToDecimal(i) && s[0] != '-';
      DecimalRoundTrip(i);
    }
  }

  // ---------------------------------------------------------------------
  // Cell and range references
  // ---------------------------------------------------------------------

  datatype CellRef = CellRef(column: string, row: int)

  datatype RangeRef = RangeRef(first: CellRef, last: CellRef)

  predicate ValidRef(r: RangeRef)
  {
    |r.first.column| >= 1 && AllLetters(r.first.column) && |r.last.column| >= 1 && AllLetters(r.last.column)
  }

  function CellText(c: CellRef): string { c.column + IntToDecimal(c.row) }

  function RangeText(r: RangeRef): string { CellText(r.first) + ":" + CellText(r.last) }

  /** The number of leading letters of `s`. */
  function LeadingLetters(s: string): (k: nat)
    ensures k <= |s| && AllLetters(s[..k]) && (k < |s| ==> !IsLetter(s[k]))
  {
    if s == [] || !IsLetter(s[0]) then 0 else 1 + LeadingLetters(s[1..])
  }

  /** The index of the first ':' in `s`, or |s| when there is none. */
  function ColonAt(s: string): (k: nat)
    ensures k <= |s| && (k < |s| ==> s[k] == ':') && (forall i :: 0 <= i < k ==> s[i] != ':')
  {
    if s == [] then 0 else if s[0] == ':' then 0 else 1 + ColonAt(s[1..])
  }

  /** Reads a cell reference: column letters followed by a row number. */
  function ParseCell(s: string): Option<CellRef>
  {
    var k := LeadingLetters(s);
    if k == 0 then None
    else match ParseInt(s[k..])
      case None => None
      case Some(row) => Some(CellRef(s[..k], row))
  }

  /** Reads a range reference: two cell references separated by ':'. */
  function ParseRange(s: string): Option<RangeRef>
  {
    var k := ColonAt(s);
    if k == |s| then None
    else match (ParseCell(s[..k]), ParseCell(s[k + 1..]))
      case (Some(first), Some(last)) => Some(RangeRef(first, last))
      case _ => None
  }

  lemma {:induction false} LeadingLettersOfPrefix(a: string, b: string)
    requires AllLetters(a)
    requires b == [] || !IsLetter(b[0])
    ensures LeadingLetters(a + b) == |a|
  {
    if a != [] {
      assert (a + b)[1..] == a[1..] + b;
      LeadingLettersOfPrefix(a[1..], b);
    }
  }

  lemma ParseCellText(c: CellRef)
    requires |c.column| >= 1 && AllLetters(c.column)
    ensures ParseCell(CellText(c)) == Some(c)
  {
    var s, d := CellText(c), IntToDecimal(c.row);
    LeadingLettersOfPrefix(c.column, d);
    assert s[|c.column|..] == d && s[..|c.column|] == c.column;
    ParseIntOfDecimal(c.row);
  }

  lemma {:induction false} ColonAtOfPrefix(a: string, b: string)
    requires forall i :: 0 <= i < |a| ==> a[i] != ':'
    ensures ColonAt(a + [':'] + b) == |a|
  {
    if a != [] {
      assert (a + [':'] + b)[1..] == a[1..] + [':'] + b;
      ColonAtOfPrefix(a[1..], b);
    }
  }

  lemma NoColonInCell(c: CellRef)
    requires AllLetters(c.column)
    ensures forall i :: 0 <= i < |CellText(c)| ==> CellText(c)[i] != ':'
  {
    var d := IntToDecimal(c.row);
    assert c.row < 0 ==> d == "-" + NatToDecimal(-c.row);
    assert forall i :: 0 <= i < |d| ==> d[i] != ':';
  }

  /** A rendered range reads back as the corners it was rendered from. */
  lemma ParseRangeText(r: RangeRef)
    requires ValidRef(r)
    ensures ParseRange(RangeText(r)) == Some(r)
  {
    var a, b := CellText(r.first), CellText(r.last);
    NoColonInCell(r.first);
    ColonAtOfPrefix(a, b);
    assert RangeText(r) == a + [':'] + b;
    assert RangeText(r)[..|a|] == a && RangeText(r)[|a| + 1..] == b;
    ParseCellText(r.first);
    ParseCellText(r.last);
  }

  /** Number of rows a range spans. */
  function RowSpan(r: RangeRef): int { r.last.row - r.first.row + 1 }

  /** Number of columns a range spans. */
  function ColumnSpan(r: RangeRef): int
    requires ValidRef(r)
  {
    ColumnNumber(r.last.column) - ColumnNumber(r.first.column) + 1
  }

  // ---------------------------------------------------------------------
  // get_range_ref_for_shape
  // ---------------------------------------------------------------------

  /** The corners a successful call of GetRangeRefForShape denotes. */
  predicate DenotesCorners(s: string, firstCol: string, firstRow: int, lastColNumber: int, lastRow: int)
  {
    && ParseRange(s).Some?
    && var r := ParseRange(s).value;
    && r.first == CellRef(firstCol, firstRow)
    && IsColumnName(r.last.column)
    && ColumnNumber(r.last.column) == lastColNumber
    && r.last.row == lastRow
  }

  /**
   * `get_range_ref_for_shape` as written: the last corner is the first corner
   * moved `numCols` columns right and `numRows` rows down.
   */
  function GetRangeRefForShape(numRows: int, numCols: int, firstRow: int, firstCol: string): (r: Result<string, RangeError>)
    ensures r.Ok? <==> IsColumnName(firstCol) && 1 <= ColumnNumber(firstCol) + numCols <= MaxColumn
    ensures r.Ok? ==> DenotesCorners(r.value, firstCol, firstRow, ColumnNumber(firstCol) + numCols, firstRow + numRows)
    ensures r.Ok? ==> r.value == RangeText(ParseRange(r.value).value)
  {
    match ColumnIndexFromString(firstCol)
    case Err(e) => Err(e)
    case Ok(firstColNumber) =>
      match GetColumnLetter(firstColNumber + numCols)
      case Err(e) => Err(e)
      case Ok(lastCol) =>
        var rr := RangeRef(CellRef(firstCol, firstRow), CellRef(lastCol, firstRow + numRows));
        ParseRangeText(rr);
        Ok(RangeText(rr))
  }

  /** The range as written spans one row and one column more than the shape it is given. */
  lemma ShapeSpansOneExtra(numRows: int, numCols: int, firstRow: int, firstCol: string)
    requires IsColumnName(firstCol) && 1 <= ColumnNumber(firstCol) + numCols <= MaxColumn
    ensures var r := ParseRange(GetRangeRefForShape(numRows, numCols, firstRow, firstCol).value);
      r.Some? && ValidRef(r.value) && RowSpan(r.value) == numRows + 1 && ColumnSpan(r.value) == numCols + 1
  {
  }

  /**
   * Each count moves its own end coordinate by exactly its change: a wider
   * shape ends further right, a taller one further down, whatever the other
   * count does.
   */
  lemma ShapeEndMonotone(numRows: int, numCols: int, numRows': int, numCols': int, firstRow: int, firstCol: string)
    requires IsColumnName(firstCol)
    requires 1 <= ColumnNumber(firstCol) + numCols <= MaxColumn && 1 <= ColumnNumber(firstCol) + numCols' <= MaxColumn
    ensures var r := ParseRange(GetRangeRefForShape(numRows, numCols, firstRow, firstCol).value).value;
      var r' := ParseRange(GetRangeRefForShape(numRows', numCols', firstRow, firstCol).value).value;
      && ColumnNumber(r'.last.column) - ColumnNumber(r.last.column) == numCols' - numCols
      && r'.last.row - r.last.row == numRows' - numRows
      && (numCols < numCols' ==> ColumnNumber(r.last.column) < ColumnNumber(r'.last.column))
      && (numRows < numRows' ==> r.last.row < r'.last.row)
  {
  }

  /** Moving one column right of "Z" carries into "AA". */
  lemma ShapeCarriesPastZ()
    ensures GetRangeRefForShape(1, 1, 1, "Z") == Ok("Z1:AA2")
  {
    assert IsColumnName("Z") && ColumnNumber("Z") == 26;
    assert ColumnIndexFromString("Z") == Ok(26);
    assert ColumnLetters(27) == "AA";
    assert GetColumnLetter(27) == Ok("AA");
    assert IntToDecimal(1) == "1" && IntToDecimal(2) == "2";
    assert RangeText(RangeRef(CellRef("Z", 1), CellRef("AA", 2))) == "Z1:AA2";
  }

  /** A 3 x 2 shape at A5 is addressed as "A5:C8": four rows and three columns. */
  lemma ShapeOffByOne()
    ensures GetRangeRefForShape(3, 2, 5, "A") == Ok("A5:C8")
  {
    assert IsColumnName("A") && ColumnNumber("A") == 1;
    assert ColumnIndexFromString("A") == Ok(1);
    assert ColumnLetters(3) == "C";
    assert GetColumnLetter(3) == Ok("C");
    assert IntToDecimal(5) == "5" && IntToDecimal(8) == "8";
    assert RangeText(RangeRef(CellRef("A", 5), CellRef("C", 8))) == "A5:C8";
  }

  /**
   * The address of a shape as its docstring describes it: the last corner is
   * `numRows - 1` rows down and `numCols - 1` columns right of the first.
   */
  function ExactRangeRefForShape(numRows: int, numCols: int, firstRow: int, firstCol: string): (r: Result<string, RangeError>)
    ensures r.Ok? <==> numRows >= 1 && numCols >= 1 && IsColumnName(firstCol) && ColumnNumber(firstCol) + numCols - 1 <= MaxColumn
    ensures r.Ok? ==> DenotesCorners(r.value, firstCol, firstRow, ColumnNumber(firstCol) + numCols - 1, firstRow + numRows - 1)
  {
    if numRows < 1 || numCols < 1 then Err(EmptyShape)
    else GetRangeRefForShape(numRows - 1, numCols - 1, firstRow, firstCol)
  }

  /** The exact address covers exactly `numRows` rows and `numCols` columns. */
  lemma ExactShapeSpans(numRows: int, numCols: int, firstRow: int, firstCol: string)
    requires numRows >= 1 && numCols >= 1
    requires IsColumnName(firstCol) && ColumnNumber(firstCol) + numCols - 1 <= MaxColumn
    ensures var r := ParseRange(ExactRangeRefForShape(numRows, numCols, firstRow, firstCol).value);
      r.Some? && ValidRef(r.value) && RowSpan(r.value) == numRows && ColumnSpan(r.value) == numCols
  {
  }

  lemma ExactShapeExample()
    ensures ExactRangeRefForShape(3, 2, 5, "A") == Ok("A5:B7")
  {
    assert IsColumnName("A") && ColumnNumber("A") == 1;
    assert ColumnIndexFromString("A") == Ok(1);
    assert ColumnLetters(2) == "B";
    assert GetColumnLetter(2) == Ok("B");
    assert IntToDecimal(5) == "5" && IntToDecimal(7) == "7";
    assert RangeText(RangeRef(CellRef("A", 5), CellRef("B", 7))) == "A5:B7";
  }
}
