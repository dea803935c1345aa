/**
 * The older loss-development exhibit (exhibits/loss_development.py): one
 * list-type data-validation rule per index column, in column 1, with the
 * column's first label as the cell's initial value.
 */
module LegacyExhibit {
  import opened Wrappers
  import opened Host
  import opened ControlLayout
  import opened Triangles

  const InputMessage := "Used for data segmentation"

  datatype SegmentError = EmptyColumn(column: string)

  // ---------------------------------------------------------------------
  // List formulas
  // ---------------------------------------------------------------------

  /** The values joined by ", ", in order. */
  function JoinValues(vs: seq<string>): string
  {
    if |vs| == 0 then ""
    else if |vs| == 1 then vs[0]
    else vs[0] + ", " + JoinValues(vs[1..])
  }

  /** The first comma of `s`, if any. */
  function CommaAt(s: string): (r: Option<nat>)
    ensures r.Some? ==> r.value < |s| && s[r.value] == ',' && forall i :: 0 <= i < r.value ==> s[i] != ','
    ensures r.None? ==> forall i :: 0 <= i < |s| ==> s[i] != ','
  {
    if s == [] then None
    else if s[0] == ',' then Some(0)
    else match CommaAt(s[1..])
      case None => None
      case Some(i) => Some(i + 1)
  }

  /** Drops one leading blank. */
  function DropBlank(s: string): (r: string)
    ensures |r| <= |s|
  {
    if |s| > 0 && s[0] == ' ' then s[1..] else s
  }

  /** The items of a list formula: split at each comma, one blank after the comma dropped. */
  function SplitList(s: string): (items: seq<string>)
    ensures |items| >= 1
    decreases |s|
  {
    match CommaAt(s)
    case None => [s]
    case Some(i) => [s[..i]] + SplitList(DropBlank(s[i + 1..]))
  }

  predicate NoComma(v: string)
  {
    forall i :: 0 <= i < |v| ==> v[i] != ','
  }

  /** The comma after a comma-free prefix is the first one. */
  lemma CommaAfterPrefix(a: string, b: string)
    requires NoComma(a)
    ensures CommaAt(a + "," + b) == Some(|a|)
  {
    var s := a + "," + b;
    assert s[|a|] == ',';
    assert forall i :: 0 <= i < |a| ==> s[i] == a[i];
  }

  /** A comma-free value followed by ", " splits off as the first item. */
  lemma SplitStep(a: string, b: string)
    requires NoComma(a)
    ensures SplitList(a + ", " + b) == [a] + SplitList(b)
  {
    var s := a + ", " + b;
    assert s == a + "," + (" " + b);
    CommaAfterPrefix(a, " " + b);
    assert s[..|a|] == a;
    assert s[|a| + 1..] == " " + b;
    assert DropBlank(" " + b) == b;
  }

  /** Joining with ", " and splitting the formula gives back the values, none of which holds a comma. */
  lemma {:induction false} SplitJoin(vs: seq<string>)
    requires |vs| >= 1 && forall k :: 0 <= k < |vs| ==> NoComma(vs[k])
    ensures SplitList(JoinValues(vs)) == vs
  {
    if |vs| == 1 {
      assert CommaAt(vs[0]) == None;
    } else {
      SplitStep(vs[0], JoinValues(vs[1..]));
      SplitJoin(vs[1..]);
      assert [vs[0]] + vs[1..] == vs;
    }
  }

  // ---------------------------------------------------------------------
  // Validation rules
  // ---------------------------------------------------------------------

  function ErrorMessage(column: string, formula: string): string
  {
    "Invalid value for " + column + ". Options are [" + formula + "]"
  }

  /** The validation rule of one index column. */
  function SegmentValidation(f: Filter): Validation
  {
    var formula := JoinValues(f.values);
    Validation(
      formula := formula,
      inputTitle := f.segment,
      inputMessage := InputMessage,
      errorTitle := f.segment,
      errorMessage := ErrorMessage(f.segment, formula),
      inCellDropdown := true,
      showInput := true,
      showError := true,
      ignoreBlank := false)
  }

  /** The k-th column's rule sits at row k + 1 of column 1. */
  function ValidationsFor(fs: seq<Filter>): map<Cell, Validation>
  {
    if fs == [] then map[]
    else ValidationsFor(fs[..|fs| - 1])[Cell(|fs|, 1) := SegmentValidation(fs[|fs| - 1])]
  }

  /** The k-th column's first label sits at row k + 1 of column 1. */
  function InitialValuesFor(fs: seq<Filter>): map<Cell, CellValue>
    requires forall k :: 0 <= k < |fs| ==> |fs[k].values| >= 1
  {
    if fs == [] then map[]
    else InitialValuesFor(fs[..|fs| - 1])[Cell(|fs|, 1) := Text(fs[|fs| - 1].values[0])]
  }

  /** One rule per filter, the k-th at row k + 1 of column 1, and nothing else. */
  lemma {:induction false} ValidationsForAt(fs: seq<Filter>)
    ensures forall c :: c in ValidationsFor(fs) <==> 1 <= c.row <= |fs| && c.column == 1
    ensures forall k :: 0 <= k < |fs| ==> ValidationsFor(fs)[Cell(k + 1, 1)] == SegmentValidation(fs[k])
  {
    if fs != [] {
      var n := |fs| - 1;
      ValidationsForAt(fs[..n]);
      assert forall k :: 0 <= k < n ==> fs[..n][k] == fs[k];
    }
  }

  /** One initial value per filter, the k-th filter's first value at row k + 1 of column 1, and nothing else. */
  lemma {:induction false} InitialValuesForAt(fs: seq<Filter>)
    requires forall k :: 0 <= k < |fs| ==> |fs[k].values| >= 1
    ensures forall c :: c in InitialValuesFor(fs) <==> 1 <= c.row <= |fs| && c.column == 1
    ensures forall k :: 0 <= k < |fs| ==> InitialValuesFor(fs)[Cell(k + 1, 1)] == Text(fs[k].values[0])
  {
    if fs != [] {
      var n := |fs| - 1;
      InitialValuesForAt(fs[..n]);
      assert forall k :: 0 <= k < n ==> fs[..n][k] == fs[k];
    }
  }

  /**
   * The rule of index column k lists exactly that column's labels (when none
   * holds a comma), is titled with the column's name, quotes the same list
   * in its error message, rejects blanks, and the cell's initial value is the
   * first listed option.
   */
  lemma ValidationOffersColumn(t: Triangle, k: nat)
    requires WellFormed(t) && k < |t.indexColumns| && |t.index| >= 1
    requires forall i :: 0 <= i < |t.index| ==> NoComma(t.index[i][k])
    ensures var fs := IndexToDict(t);
      var v := SegmentValidation(fs[k]);
      && SplitList(v.formula) == ColumnValues(t, k)
      && Cell(k + 1, 1) in InitialValuesFor(fs)
      && InitialValuesFor(fs)[Cell(k + 1, 1)] == Text(SplitList(v.formula)[0])
      && v.inputTitle == v.errorTitle == t.indexColumns[k]
      && v.errorMessage == "Invalid value for " + t.indexColumns[k] + ". Options are [" + v.formula + "]"
      && v.inCellDropdown && v.showInput && v.showError && !v.ignoreBlank
  {
    var fs := IndexToDict(t);
    var vs := ColumnValues(t, k);
    assert fs[k] == Filter(t.indexColumns[k], vs);
    SplitJoin(vs);
    InitialValuesForAt(fs);
  }

  /** Updating a union at one key is updating its right operand there. */
  lemma UnionUpdate<V>(m: map<Cell, V>, n: map<Cell, V>, c: Cell, v: V)
    ensures (m + n)[c := v] == m + n[c := v]
  {
  }

  // ---------------------------------------------------------------------
  // The exhibit
  // ---------------------------------------------------------------------

  class LossDevelopmentExhibit {
    var data: Triangle
    /** One list of labels per index column, in column order. */
    var validations: seq<Filter>

    /** Holds the data in cumulative form and the index lists derived from it. */
    constructor (data: Triangle)
      requires WellFormed(data)
      ensures this.data == Cumulative(data) && WellFormed(this.data)
      ensures validations == IndexToDict(this.data)
    {
      this.data := data;
      new;
      if !this.data.isCumulative {
        this.data := IncrToCum(this.data);
      }
      validations := IndexToDict(this.data);
    }

    /**
     * Puts the rule of the i-th index column and then its first label in
     * cell (i + 1, 1), column by column; a column without labels fails once
     * its rule is in place.
     */
    method AddSegmentDropdowns(ws: Worksheet) returns (outcome: Outcome<SegmentError>)
      requires WellFormed(data)
      modifies ws
      ensures ws.name == old(ws.name) && ws.controls == old(ws.controls)
      ensures outcome.Pass? <==> FirstEmpty(IndexToDict(data)) == |IndexToDict(data)|
      ensures outcome.Pass? ==>
        && ws.validations == old(ws.validations) + ValidationsFor(IndexToDict(data))
        && ws.cells == old(ws.cells) + InitialValuesFor(IndexToDict(data))
      ensures outcome.Fail? ==>
        var e := FirstEmpty(IndexToDict(data));
        && e < |IndexToDict(data)|
        && outcome.error == EmptyColumn(data.indexColumns[e])
        && ws.validations == old(ws.validations) + ValidationsFor(IndexToDict(data)[..e + 1])
        && ws.cells == old(ws.cells) + InitialValuesFor(IndexToDict(data)[..e])
    {
      outcome := PlaceRules(ws, IndexToDict(data));
    }
  }

  /**
   * The loop of AddSegmentDropdowns: the rule of filter i and then its first
   * value go to cell (i + 1, 1); a filter without values fails once its rule
   * is in place.
   */
  method PlaceRules(ws: Worksheet, fs: seq<Filter>) returns (outcome: Outcome<SegmentError>)
    modifies ws
    ensures ws.name == old(ws.name) && ws.controls == old(ws.controls)
    ensures outcome.Pass? <==> FirstEmpty(fs) == |fs|
    ensures outcome.Pass? ==>
      && ws.validations == old(ws.validations) + ValidationsFor(fs)
      && ws.cells == old(ws.cells) + InitialValuesFor(fs)
    ensures outcome.Fail? ==>
      var e := FirstEmpty(fs);
      && e < |fs|
      && outcome.error == EmptyColumn(fs[e].segment)
      && ws.validations == old(ws.validations) + ValidationsFor(fs[..e + 1])
      && ws.cells == old(ws.cells) + InitialValuesFor(fs[..e])
  {
    var i := 0;
    while i < |fs|
      invariant 0 <= i <= |fs|
      invariant forall k :: 0 <= k < i ==> |fs[k].values| >= 1
      invariant ws.validations == old(ws.validations) + ValidationsFor(fs[..i])
      invariant ws.cells == old(ws.cells) + InitialValuesFor(fs[..i])
      invariant ws.name == old(ws.name) && ws.controls == old(ws.controls)
    {
      assert fs[..i + 1][..i] == fs[..i];
      assert ValidationsFor(fs[..i + 1]) == ValidationsFor(fs[..i])[Cell(i + 1, 1) := SegmentValidation(fs[i])];
      UnionUpdate(old(ws.validations), ValidationsFor(fs[..i]), Cell(i + 1, 1), SegmentValidation(fs[i]));
      ws.validations := ws.validations[Cell(i + 1, 1) := SegmentValidation(fs[i])];
      if |fs[i].values| == 0 {
        assert FirstEmpty(fs) == i;
        return Fail(EmptyColumn(fs[i].segment));
      }
      assert InitialValuesFor(fs[..i + 1]) == InitialValuesFor(fs[..i])[Cell(i + 1, 1) := Text(fs[i].values[0])];
      UnionUpdate(old(ws.cells), InitialValuesFor(fs[..i]), Cell(i + 1, 1), Text(fs[i].values[0]));
      ws.cells := ws.cells[Cell(i + 1, 1) := Text(fs[i].values[0])];
      i := i + 1;
    }
    assert fs[..i] == fs;
    return Pass;
  }
}
