/**
 * The interactive loss-development exhibit
 * (exhibits/loss_development/loss_development.py) and the change-event
 * handler bound to each of its list boxes
 * (exhibits/loss_development/_events.py).
 *
 * The two classes share one module because each refers to the other: the
 * exhibit creates handlers and binds itself to them, and a handler calls
 * back into its exhibit.
 */
module LossDevelopment {
  import opened Wrappers
  import opened Host
  import opened ControlLayout
  import opened Triangles
  import RangeAddress

  /** The name of the worksheet the exhibit is loaded into. */
  const WorksheetName: string := "LossDevelopment"

  /** The text written for a missing cell; the host reads it as the #N/A formula. */
  const NotAvailable: string := "=NA()"

  datatype ExhibitError = LayoutFailed(cause: LayoutError) | SelectionNotFound | NoExhibit

  // ---------------------------------------------------------------------
  // Lookup key
  // ---------------------------------------------------------------------

  /** The labels of a row of control values, when every control has a value. */
  function Labels(values: seq<Option<string>>): (r: Option<seq<string>>)
    ensures r.Some? <==> forall i :: 0 <= i < |values| ==> values[i].Some?
    ensures r.Some? ==> |r.value| == |values| && forall i :: 0 <= i < |values| ==> values[i] == Some(r.value[i])
  {
    if values == [] then Some([])
    else match (Labels(values[..|values| - 1]), values[|values| - 1])
      case (Some(init), Some(last)) => Some(init + [last])
      case _ => None
  }

  /**
   * The key of the cross-section to show: the index controls' values in
   * control order, paired with the amount control's value.
   */
  function SelectionKey(indexValues: seq<Option<string>>, amount: Option<string>): (r: Option<Key>)
    ensures r.Some? <==> amount.Some? && forall i :: 0 <= i < |indexValues| ==> indexValues[i].Some?
    ensures r.Some? ==> |r.value.labels| == |indexValues| && amount == Some(r.value.measure)
    ensures r.Some? ==> forall i :: 0 <= i < |indexValues| ==> indexValues[i] == Some(r.value.labels[i])
  {
    match (Labels(indexValues), amount)
    case (Some(labels), Some(measure)) => Some(Key(labels, measure))
    case _ => None
  }

  /** A change to one control changes that coordinate of the key and no other. */
  lemma SelectionKeyIsLocal(indexValues: seq<Option<string>>, amount: Option<string>, i: nat, x: string)
    requires i < |indexValues| && SelectionKey(indexValues, amount).Some?
    ensures var k := SelectionKey(indexValues, amount).value;
      SelectionKey(indexValues[i := Some(x)], amount) == Some(Key(k.labels[i := x], k.measure))
  {
    var k := SelectionKey(indexValues, amount).value;
    var k' := SelectionKey(indexValues[i := Some(x)], amount).value;
    assert k'.labels == k.labels[i := x];
  }

  // ---------------------------------------------------------------------
  // What a refresh writes
  // ---------------------------------------------------------------------

  function Render(a: Option<Amount>): CellValue
  {
    match a
    case Some(amount) => Measured(amount)
    case None => Text(NotAvailable)
  }

  /** Origin labels down column C from row 3. */
  function OriginHeader(origin: seq<string>): map<Cell, CellValue>
  {
    map i | 0 <= i < |origin| :: Cell(3 + i, 3) := Text(origin[i])
  }

  /** Development labels across row 2 from column D. */
  function DevelopmentHeader(development: seq<int>): map<Cell, CellValue>
  {
    map j | 0 <= j < |development| :: Cell(2, 4 + j) := Whole(development[j])
  }

  /** The matrix anchored at D3, missing cells rendered as the not-available marker. */
  function Body(m: Matrix): map<Cell, CellValue>
  {
    map i, j | 0 <= i < |m| && 0 <= j < |m[i]| :: Cell(3 + i, 4 + j) := Render(m[i][j])
  }

  /** Everything one refresh writes for a cross-section. */
  function SliceCells(origin: seq<string>, development: seq<int>, m: Matrix): map<Cell, CellValue>
  {
    OriginHeader(origin) + DevelopmentHeader(development) + Body(m)
  }

  /** Cell `c` lies in the `rows` x `cols` rectangle whose top-left cell is (top, left). */
  predicate InBlock(c: Cell, top: int, left: int, rows: nat, cols: nat)
  {
    top <= c.row < top + rows && left <= c.column < left + cols
  }

  /** The origin labels go down column C from row 3, one per origin. */
  lemma OriginHeaderContents(origin: seq<string>)
    ensures forall c :: c in OriginHeader(origin) <==> InBlock(c, 3, 3, |origin|, 1)
    ensures forall i :: 0 <= i < |origin| ==> OriginHeader(origin)[Cell(3 + i, 3)] == Text(origin[i])
  {
    forall c | InBlock(c, 3, 3, |origin|, 1) ensures c in OriginHeader(origin) {
      var i := c.row - 3;
      assert Cell(3 + i, 3) == c;
    }
  }

  /** The development labels go across row 2 from column D, one per development period. */
  lemma DevelopmentHeaderContents(development: seq<int>)
    ensures forall c :: c in DevelopmentHeader(development) <==> InBlock(c, 2, 4, 1, |development|)
    ensures forall j :: 0 <= j < |development| ==> DevelopmentHeader(development)[Cell(2, 4 + j)] == Whole(development[j])
  {
    forall c | InBlock(c, 2, 4, 1, |development|) ensures c in DevelopmentHeader(development) {
      var j := c.column - 4;
      assert Cell(2, 4 + j) == c;
    }
  }

  /**
   * The matrix fills the block at D3; a missing cell, and only a missing
   * cell, becomes the not-available marker, and every present amount is
   * written as itself.
   */
  lemma BodyContents(m: Matrix, rows: nat, cols: nat)
    requires IsMatrix(m, rows, cols)
    ensures forall c :: c in Body(m) <==> InBlock(c, 3, 4, rows, cols)
    ensures forall i, j :: 0 <= i < rows && 0 <= j < cols ==>
      (Body(m)[Cell(3 + i, 4 + j)] == Text(NotAvailable) <==> m[i][j].None?)
    ensures forall i, j, a :: 0 <= i < rows && 0 <= j < cols ==>
      (Body(m)[Cell(3 + i, 4 + j)] == Measured(a) <==> m[i][j] == Some(a))
  {
    forall c | InBlock(c, 3, 4, rows, cols) ensures c in Body(m) {
      var i, j := c.row - 3, c.column - 4;
      assert |m[i]| == cols;
      assert Cell(3 + i, 4 + j) == c;
    }
  }

  /** A refresh writes the three blocks and nothing else. */
  lemma SliceCellsDomain(origin: seq<string>, development: seq<int>, m: Matrix)
    requires IsMatrix(m, |origin|, |development|)
    ensures forall c :: c in SliceCells(origin, development, m) <==>
      InBlock(c, 3, 3, |origin|, 1) || InBlock(c, 2, 4, 1, |development|) || InBlock(c, 3, 4, |origin|, |development|)
  {
    OriginHeaderContents(origin);
    DevelopmentHeaderContents(development);
    BodyContents(m, |origin|, |development|);
  }

  /** Each origin label lands in column C, below the development row and left of the matrix. */
  lemma SliceCellsOrigin(origin: seq<string>, development: seq<int>, m: Matrix)
    requires IsMatrix(m, |origin|, |development|)
    ensures forall i :: 0 <= i < |origin| ==> SliceCells(origin, development, m)[Cell(3 + i, 3)] == Text(origin[i])
  {
    OriginHeaderContents(origin);
    DevelopmentHeaderContents(development);
    BodyContents(m, |origin|, |development|);
  }

  /** Each development label lands in row 2, above the matrix. */
  lemma SliceCellsDevelopment(origin: seq<string>, development: seq<int>, m: Matrix)
    requires IsMatrix(m, |origin|, |development|)
    ensures forall j :: 0 <= j < |development| ==> SliceCells(origin, development, m)[Cell(2, 4 + j)] == Whole(development[j])
  {
    DevelopmentHeaderContents(development);
    BodyContents(m, |origin|, |development|);
  }

  /** Each amount of the matrix, rendered, lands in its own cell of the block at D3. */
  lemma SliceCellsBody(origin: seq<string>, development: seq<int>, m: Matrix)
    requires IsMatrix(m, |origin|, |development|)
    ensures forall i, j :: 0 <= i < |origin| && 0 <= j < |development| ==>
      SliceCells(origin, development, m)[Cell(3 + i, 4 + j)] == Render(m[i][j])
  {
    forall i, j | 0 <= i < |origin| && 0 <= j < |development|
      ensures SliceCells(origin, development, m)[Cell(3 + i, 4 + j)] == Render(m[i][j])
    {
      assert |m[i]| == |development|;
      assert Body(m)[Cell(3 + i, 4 + j)] == Render(m[i][j]);
    }
  }

  /** The cells of a range reference. */
  predicate InRange(c: Cell, r: RangeAddress.RangeRef)
    requires RangeAddress.ValidRef(r)
  {
    && r.first.row <= c.row <= r.last.row
    && RangeAddress.ColumnNumber(r.first.column) <= c.column <= RangeAddress.ColumnNumber(r.last.column)
  }

  /** The block of a shape is exactly the range the corrected address of that shape denotes. */
  lemma BlockIsExactRange(rows: nat, cols: nat, top: int, left: string)
    requires rows >= 1 && cols >= 1
    requires RangeAddress.IsColumnName(left) && RangeAddress.ColumnNumber(left) + cols - 1 <= RangeAddress.MaxColumn
    ensures var r := RangeAddress.ParseRange(RangeAddress.ExactRangeRefForShape(rows, cols, top, left).value);
      && r.Some? && RangeAddress.ValidRef(r.value)
      && forall c :: InBlock(c, top, RangeAddress.ColumnNumber(left), rows, cols) <==> InRange(c, r.value)
  {
  }

  /** The address as written denotes one more row and one more column than the block. */
  lemma BlockOfShapeAsWritten(rows: nat, cols: nat, top: int, left: string)
    requires RangeAddress.IsColumnName(left) && RangeAddress.ColumnNumber(left) + cols <= RangeAddress.MaxColumn
    ensures var r := RangeAddress.ParseRange(RangeAddress.GetRangeRefForShape(rows, cols, top, left).value);
      && r.Some? && RangeAddress.ValidRef(r.value)
      && forall c :: InBlock(c, top, RangeAddress.ColumnNumber(left), rows + 1, cols + 1) <==> InRange(c, r.value)
  {
  }

  lemma UnionOfThree(cells: map<Cell, CellValue>, a: map<Cell, CellValue>, b: map<Cell, CellValue>, c: map<Cell, CellValue>)
    ensures cells + a + b + c == cells + (a + b + c)
  {
  }

  /** The outcome and the worksheet cells after a refresh that found `slice`. */
  function RefreshOutcome(slice: Option<Matrix>): Outcome<ExhibitError>
  {
    if slice.Some? then Pass else Fail(SelectionNotFound)
  }

  function AfterRefresh(cells: map<Cell, CellValue>, t: Triangle, slice: Option<Matrix>): map<Cell, CellValue>
  {
    if slice.Some? then cells + SliceCells(t.origin, t.development, slice.value) else cells
  }

  /** Refreshing again with the same selection leaves the worksheet as the first refresh left it. */
  lemma RefreshIsIdempotent(cells: map<Cell, CellValue>, t: Triangle, slice: Option<Matrix>)
    ensures AfterRefresh(AfterRefresh(cells, t, slice), t, slice) == AfterRefresh(cells, t, slice)
  {
    if slice.Some? {
      var written := SliceCells(t.origin, t.development, slice.value);
      assert cells + written + written == cells + written;
    }
  }

  // ---------------------------------------------------------------------
  // Controls
  // ---------------------------------------------------------------------

  /** The live values of a sequence of controls, in order. */
  function ControlValues(hs: seq<ListBoxEventHandler>): (vs: seq<Option<string>>)
    reads set h | h in hs :: h.control
    ensures |vs| == |hs| && forall i :: 0 <= i < |hs| ==> vs[i] == hs[i].control.value
  {
    if hs == [] then [] else ControlValues(hs[..|hs| - 1]) + [hs[|hs| - 1].control.value]
  }

  function ControlsOf(hs: seq<ListBoxEventHandler>): seq<ListBox>
  {
    seq(|hs|, k requires 0 <= k < |hs| => hs[k].control)
  }

  lemma ControlsOfAppend(hs: seq<ListBoxEventHandler>, h: ListBoxEventHandler)
    ensures ControlsOf(hs + [h]) == ControlsOf(hs) + [h.control]
  {
  }

  /** A sequence that starts with `base + more` starts with `base`. */
  lemma PrefixOfPrefix<T>(base: seq<T>, more: seq<T>, cs: seq<T>)
    requires |base| + |more| <= |cs| && cs[..|base| + |more|] == base + more
    ensures cs[..|base|] == base
  {
    assert cs[..|base|] == (base + more)[..|base|];
  }

  /** The cells of the sheet named `name`, or none when there is no such sheet. */
  ghost function SheetCells(sheets: seq<Worksheet>, name: string): map<Cell, CellValue>
    reads sheets
  {
    match FindSheet(sheets, name)
    case Some(i) => sheets[i].cells
    case None => map[]
  }

  /** The controls of the sheet named `name`, or none when there is no such sheet. */
  ghost function SheetControls(sheets: seq<Worksheet>, name: string): seq<ListBox>
    reads sheets
  {
    match FindSheet(sheets, name)
    case Some(i) => sheets[i].controls
    case None => []
  }

  /** The validation rules of the sheet named `name`, or none when there is no such sheet. */
  ghost function SheetValidations(sheets: seq<Worksheet>, name: string): map<Cell, Validation>
    reads sheets
  {
    match FindSheet(sheets, name)
    case Some(i) => sheets[i].validations
    case None => map[]
  }

  /** Loading succeeds exactly when every filter has a value and the first key is present. */
  predicate LoadSucceeds(t: Triangle)
  {
    |t.indexColumns| >= 1 && |t.index| >= 1 && |t.columns| >= 1 && InitialKey(t) in t.cells
  }

  /** The index controls can all be built exactly when there is an index column and an index row. */
  lemma IndexDropdownsBuild(t: Triangle)
    requires WellFormed(t)
    ensures (AllValues(IndexToDict(t)) != [] && FirstEmpty(IndexToDict(t)) == |IndexToDict(t)|)
        <==> |t.indexColumns| >= 1 && |t.index| >= 1
  {
    var fs := IndexToDict(t);
    AllValuesLength(fs);
    IndexHeightIsShapeProduct(t);
    if |t.indexColumns| >= 1 && |t.index| >= 1 {
      assert |t.index| * |t.indexColumns| >= 1;
    }
    if |t.indexColumns| >= 1 && |t.index| == 0 {
      assert fs[0].values == [];
    }
  }

  /** The amount control can be built exactly when there is a measure column. */
  lemma AmountDropdownBuilds(t: Triangle)
    ensures (AllValues([AmountFilter(t)]) != [] && FirstEmpty([AmountFilter(t)]) == 1) <==> |t.columns| >= 1
  {
    assert [AmountFilter(t)][..0] == [];
    assert AllValues([AmountFilter(t)]) == t.columns;
  }

  /** A list box bound to the change-event handler (ListBoxEventHandler). */
  class ListBoxEventHandler {
    var exhibit: LossDevelopmentExhibit?
    const control: ListBox

    /** A handler bound to `control`, with no exhibit yet. */
    constructor (control: ListBox)
      ensures this.control == control && exhibit == null
    {
      this.control := control;
      exhibit := null;
    }

    /**
     * A change of the control's value: ignored until the exhibit is ready,
     * then exactly one refresh of the exhibit. Neither the binding nor the
     * ready flag changes.
     */
    method OnChange() returns (outcome: Outcome<ExhibitError>)
      requires exhibit != null ==> exhibit.Valid()
      modifies if exhibit == null then {} else {exhibit}
      modifies if exhibit == null || exhibit.ws == null then {} else {exhibit.ws}
      ensures exhibit == old(exhibit)
      ensures exhibit == null ==> outcome == Fail(NoExhibit)
      ensures exhibit != null ==> && exhibit.Valid()
                                  && exhibit.ready == old(exhibit.ready)
                                  && exhibit.data == old(exhibit.data)
                                  && exhibit.ws == old(exhibit.ws)
                                  && exhibit.indexFilters == old(exhibit.indexFilters)
                                  && exhibit.amountsFilter == old(exhibit.amountsFilter)
      ensures exhibit != null && exhibit.ws != null ==>
        && exhibit.ws.name == old(exhibit.ws.name)
        && exhibit.ws.validations == old(exhibit.ws.validations)
        && exhibit.ws.controls == old(exhibit.ws.controls)
      ensures exhibit != null && !exhibit.ready ==>
        && outcome == Pass
        && exhibit.refreshes == old(exhibit.refreshes)
        && (exhibit.ws != null ==> exhibit.ws.cells == old(exhibit.ws.cells))
      ensures exhibit != null && exhibit.ready ==>
        && exhibit.refreshes == old(exhibit.refreshes) + 1
        && outcome == RefreshOutcome(old(exhibit.CurrentSlice()))
        && exhibit.ws.cells == AfterRefresh(old(exhibit.ws.cells), exhibit.data, old(exhibit.CurrentSlice()))
    {
      if exhibit == null {
        return Fail(NoExhibit);
      }
      outcome := Pass;
      if exhibit.ready {
        outcome := exhibit.RefreshData();
      }
    }
  }

  class LossDevelopmentExhibit {
    var data: Triangle
    var ws: Worksheet?
    var indexFilters: seq<ListBoxEventHandler>
    var amountsFilter: ListBoxEventHandler?
    var ready: bool
    /** How many refreshes have run. */
    ghost var refreshes: nat

    ghost predicate Valid()
      reads this
    {
      && WellFormed(data) && data.isCumulative
      && (ready ==> ws != null && amountsFilter != null)
    }

    /** Holds the data in cumulative form; nothing is bound and the exhibit is not ready. */
    constructor (data: Triangle)
      requires WellFormed(data)
      ensures this.data == Cumulative(data)
      ensures ws == null && indexFilters == [] && amountsFilter == null && !ready
      ensures refreshes == 0 && Valid()
    {
      this.data := data;
      new;
      if !this.data.isCumulative {
        this.data := IncrToCum(this.data);
      }
      amountsFilter, indexFilters, ws := null, [], null;
      ready := false;
      refreshes := 0;
    }

    /** The key the controls currently select. */
    function CurrentKey(): Option<Key>
      requires amountsFilter != null
      reads this, set h | h in indexFilters :: h.control, amountsFilter.control
    {
      SelectionKey(ControlValues(indexFilters), amountsFilter.control.value)
    }

    /** The cross-section the controls currently select. */
    function CurrentSlice(): Option<Matrix>
      requires WellFormed(data) && amountsFilter != null
      reads this, set h | h in indexFilters :: h.control, amountsFilter.control
    {
      Loc(data, CurrentKey())
    }

    /** The k-th filter's control, bound to this exhibit, shows it at its place in the stack. */
    ghost predicate PlacedAs(hs: seq<ListBoxEventHandler>, fs: seq<Filter>, offset: int)
      reads set h | h in hs, set h | h in hs :: h.control
    {
      && |hs| == |fs|
      && forall k :: 0 <= k < |hs| ==> Bound(hs[k], fs[k], PlacementOf(fs, offset, k))
    }

    /** Handler `h` is bound to this exhibit and its control shows `f` at `p`. */
    ghost predicate Bound(h: ListBoxEventHandler, f: Filter, p: Placement)
      reads h, h.control
    {
      h.exhibit == this && Shows(h.control, f, p)
    }

    /**
     * Controls freshly placed for the index columns and the measures select
     * the first index row and the first measure.
     */
    lemma InitialSelection()
      requires WellFormed(data) && amountsFilter != null && |data.indexColumns| >= 1
      requires PlacedAs(indexFilters, IndexToDict(data), 0)
      requires PlacedAs([amountsFilter], [AmountFilter(data)], IndexShapeProduct(data))
      ensures |data.index| >= 1 && |data.columns| >= 1
      ensures CurrentKey() == Some(InitialKey(data))
    {
      var fs := IndexToDict(data);
      assert Bound(amountsFilter, AmountFilter(data), PlacementOf([AmountFilter(data)], IndexShapeProduct(data), 0));
      var vs := ControlValues(indexFilters);
      assert Bound(indexFilters[0], fs[0], PlacementOf(fs, 0, 0));
      forall j | 0 <= j < |vs| ensures vs[j] == Some(data.index[0][j]) {
        assert Bound(indexFilters[j], fs[j], PlacementOf(fs, 0, j));
      }
      var k := CurrentKey().value;
      assert k.labels == data.index[0];
    }

    /**
     * Stacks the index controls from row 1 and the amount control at offset
     * `prod(index.shape)`, and keeps them as the exhibit's filters.
     */
    method AddFilters() returns (outcome: Outcome<ExhibitError>)
      requires Valid() && ws != null
      modifies ws, this`indexFilters, this`amountsFilter
      ensures Valid() && ws.name == old(ws.name) && ws.validations == old(ws.validations)
      ensures outcome.Pass? <==> |data.indexColumns| >= 1 && |data.index| >= 1 && |data.columns| >= 1
      ensures outcome.Fail? ==> amountsFilter == old(amountsFilter)
      ensures outcome.Pass? ==>
        && PlacedAs(indexFilters, IndexToDict(data), 0)
        && amountsFilter != null
        && PlacedAs([amountsFilter], [AmountFilter(data)], IndexShapeProduct(data))
        && ws.controls == old(ws.controls) + ControlsOf(indexFilters) + [amountsFilter.control]
        && ws.cells == old(ws.cells) - {Cell(1, 1)}
    {
      outcome := AddIndexFilters();
      if outcome.Fail? {
        return;
      }
      outcome := AddAmountFilter();
    }

    /** The first half of AddFilters: the index controls, stacked from row 1. */
    method AddIndexFilters() returns (outcome: Outcome<ExhibitError>)
      requires Valid() && ws != null
      modifies ws, this`indexFilters
      ensures ws.name == old(ws.name) && ws.validations == old(ws.validations)
      ensures outcome.Pass? <==> |data.indexColumns| >= 1 && |data.index| >= 1
      ensures outcome.Pass? ==>
        && PlacedAs(indexFilters, IndexToDict(data), 0)
        && ws.controls == old(ws.controls) + ControlsOf(indexFilters)
        && ws.cells == old(ws.cells) - {Cell(1, 1)}
    {
      IndexDropdownsBuild(data);
      var index := AddDropdowns(IndexToDict(data), 0);
      if index.Err? {
        return Fail(index.error);
      }
      indexFilters := index.value;
      return Pass;
    }

    /** The second half of AddFilters: the amount control, below the index controls. */
    method AddAmountFilter() returns (outcome: Outcome<ExhibitError>)
      requires Valid() && ws != null && |data.indexColumns| >= 1 && |data.index| >= 1
      requires PlacedAs(indexFilters, IndexToDict(data), 0)
      modifies ws, this`amountsFilter
      ensures ws.name == old(ws.name) && ws.validations == old(ws.validations) && PlacedAs(indexFilters, IndexToDict(data), 0)
      ensures outcome.Pass? <==> |data.columns| >= 1
      ensures outcome.Fail? ==> amountsFilter == old(amountsFilter)
      ensures outcome.Pass? ==>
        && amountsFilter != null
        && PlacedAs([amountsFilter], [AmountFilter(data)], IndexShapeProduct(data))
        && ws.controls == old(ws.controls) + [amountsFilter.control]
        && ws.cells == old(ws.cells) - {Cell(1, 1)}
    {
      var fs := IndexToDict(data);
      AmountDropdownBuilds(data);
      label placed:
      var amounts := AddDropdowns([AmountFilter(data)], IndexShapeProduct(data));
      forall k | 0 <= k < |indexFilters|
        ensures Bound(indexFilters[k], fs[k], PlacementOf(fs, 0, k))
      {
        assert old@placed(Bound(indexFilters[k], fs[k], PlacementOf(fs, 0, k)));
        assert unchanged@placed(indexFilters[k], indexFilters[k].control);
      }
      if amounts.Err? {
        return Fail(amounts.error);
      }
      amountsFilter := amounts.value[0];
      assert amounts.value == [amountsFilter];
      return Pass;
    }

    /** Binds the exhibit to the first worksheet with its name, or to a new one added to the workbook. */
    method BindSheet(wb: Workbook)
      modifies this`ws, wb, wb.sheets
      ensures ws != null && ws.name == WorksheetName
      ensures ws.cells == old(SheetCells(wb.sheets, WorksheetName))
      ensures ws.controls == old(SheetControls(wb.sheets, WorksheetName))
      ensures ws.validations == old(SheetValidations(wb.sheets, WorksheetName))
      ensures old(FindSheet(wb.sheets, WorksheetName)).Some? ==>
        wb.sheets == old(wb.sheets) && ws == wb.sheets[old(FindSheet(wb.sheets, WorksheetName)).value]
      ensures old(FindSheet(wb.sheets, WorksheetName)).None? ==> fresh(ws) && wb.sheets == old(wb.sheets) + [ws]
      ensures forall s :: s in old(wb.sheets) ==> unchanged(s)
    {
      var found := FindSheet(wb.sheets, WorksheetName);
      if found.Some? {
        ws := wb.sheets[found.value];
      } else {
        var sheet := new Worksheet();
        wb.sheets := wb.sheets + [sheet];
        sheet.name := WorksheetName;
        ws := sheet;
      }
    }

    /**
     * Binds the exhibit to its worksheet (found by name, or added), stacks the
     * index controls and then the amount control directly below them, shows
     * the first cross-section and only then becomes ready. A failure leaves
     * the ready flag as it was.
     */
    method LoadInto(wb: Workbook) returns (outcome: Outcome<ExhibitError>)
      requires Valid()
      modifies this, wb, wb.sheets
      ensures Valid() && data == old(data)
      ensures ready == (old(ready) || outcome.Pass?)
      ensures ws != null && ws.name == WorksheetName
      ensures old(FindSheet(wb.sheets, WorksheetName)).Some? ==>
        wb.sheets == old(wb.sheets) && ws == wb.sheets[old(FindSheet(wb.sheets, WorksheetName)).value]
      ensures old(FindSheet(wb.sheets, WorksheetName)).None? ==> fresh(ws) && wb.sheets == old(wb.sheets) + [ws]
      ensures forall s :: s in old(wb.sheets) && s != ws ==> unchanged(s)
      ensures ws.validations == old(SheetValidations(wb.sheets, WorksheetName))
      ensures outcome.Pass? <==> LoadSucceeds(data)
      ensures outcome.Pass? ==>
        && PlacedAs(indexFilters, IndexToDict(data), 0)
        && amountsFilter != null
        && PlacedAs([amountsFilter], [AmountFilter(data)], IndexShapeProduct(data))
        && ws.controls == old(SheetControls(wb.sheets, WorksheetName)) + ControlsOf(indexFilters) + [amountsFilter.control]
        && ws.cells == old(SheetCells(wb.sheets, WorksheetName)) - {Cell(1, 1)}
                       + SliceCells(data.origin, data.development, data.cells[InitialKey(data)])
    {
      BindSheet(wb);

      outcome := AddFilters();
      if outcome.Fail? {
        return;
      }
      outcome := ShowInitialSelection();
      if outcome.Fail? {
        return;
      }
      ready := true;
    }

    /** The first refresh after loading: the controls select the first key, which is then shown. */
    method ShowInitialSelection() returns (outcome: Outcome<ExhibitError>)
      requires Valid() && ws != null && amountsFilter != null && |data.indexColumns| >= 1
      requires PlacedAs(indexFilters, IndexToDict(data), 0)
      requires PlacedAs([amountsFilter], [AmountFilter(data)], IndexShapeProduct(data))
      modifies ws, this`refreshes
      ensures PlacedAs(indexFilters, IndexToDict(data), 0)
      ensures PlacedAs([amountsFilter], [AmountFilter(data)], IndexShapeProduct(data))
      ensures ws.name == old(ws.name) && ws.validations == old(ws.validations) && ws.controls == old(ws.controls)
      ensures refreshes == old(refreshes) + 1
      ensures outcome.Pass? <==> LoadSucceeds(data)
      ensures outcome.Pass? ==> ws.cells == old(ws.cells) + SliceCells(data.origin, data.development, data.cells[InitialKey(data)])
    {
      InitialSelection();
      ghost var fs := IndexToDict(data);
      label placed:
      outcome := RefreshData();
      forall k | 0 <= k < |indexFilters|
        ensures Bound(indexFilters[k], fs[k], PlacementOf(fs, 0, k))
      {
        assert old@placed(Bound(indexFilters[k], fs[k], PlacementOf(fs, 0, k)));
        assert unchanged@placed(indexFilters[k], indexFilters[k].control);
      }
      assert old@placed(Bound(amountsFilter, AmountFilter(data), PlacementOf([AmountFilter(data)], IndexShapeProduct(data), 0)));
    }

    /**
     * One pass of the layout loop: a new list box at `top` in column 1, one
     * row per value, bound to this exhibit, listing the values with the first
     * selected and named after the segment. An empty value list fails once
     * the list has been set.
     */
    method AddDropdown(f: Filter, top: int) returns (r: Result<ListBoxEventHandler, ExhibitError>)
      requires ws != null
      modifies ws
      ensures ws.name == old(ws.name) && ws.validations == old(ws.validations) && ws.cells == old(ws.cells)
      ensures |ws.controls| == |old(ws.controls)| + 1 && ws.controls[..|old(ws.controls)|] == old(ws.controls)
      ensures r.Ok? <==> |f.values| >= 1
      ensures r.Err? ==>
        && r.error == LayoutFailed(EmptyValues(f.segment))
        && FailedAt(ws.controls[|old(ws.controls)|], f, Placement(top, 1, |f.values|))
      ensures r.Ok? ==> && fresh(r.value) && fresh(r.value.control)
                        && ws.controls == old(ws.controls) + [r.value.control]
                        && Bound(r.value, f, Placement(top, 1, |f.values|))
    {
      var segment, values := f.segment, f.values;
      var ole := new ListBox(ListBoxProgId);
      ws.controls := ws.controls + [ole];
      ole.top, ole.column := top, 1;
      ole.height := |values|;
      ole.moveAndSize := true;
      var activeX := new ListBoxEventHandler(ole);
      activeX.exhibit := this;
      ole.fontBold := true;
      ole.list := values;
      if |values| == 0 {
        return Err(LayoutFailed(EmptyValues(segment)));
      }
      ole.value := Some(values[0]);
      ole.name := Some(ControlName(segment));
      return Ok(activeX);
    }

    /**
     * The layout loop: one list box per filter, the k-th with its top row at
     * the offset plus the heights of the earlier ones plus one; stops at the
     * first filter without values.
     */
    method StackDropdowns(fs: seq<Filter>, offset: int) returns (r: Result<seq<ListBoxEventHandler>, ExhibitError>)
      requires ws != null
      modifies ws
      ensures ws.name == old(ws.name) && ws.validations == old(ws.validations) && ws.cells == old(ws.cells)
      ensures r.Ok? <==> FirstEmpty(fs) == |fs|
      ensures r.Ok? ==>
        && PlacedAs(r.value, fs, offset)
        && ws.controls == old(ws.controls) + ControlsOf(r.value)
      ensures r.Err? ==>
        && FirstEmpty(fs) < |fs|
        && r.error == LayoutFailed(EmptyValues(fs[FirstEmpty(fs)].segment))
        && |old(ws.controls)| <= |ws.controls| && ws.controls[..|old(ws.controls)|] == old(ws.controls)
        && StackFailed(ws.controls[|old(ws.controls)|..], fs, offset)
    {
      var dropdowns: seq<ListBoxEventHandler> := [];
      var numValues := offset;
      var i := 0;
      while i < |fs|
        invariant 0 <= i <= |fs| && |dropdowns| == i
        invariant numValues == offset + TotalHeight(fs[..i])
        invariant i <= FirstEmpty(fs)
        invariant forall k :: 0 <= k < i ==> Bound(dropdowns[k], fs[k], PlacementOf(fs, offset, k))
        invariant ws.controls == old(ws.controls) + ControlsOf(dropdowns)
        invariant ws.cells == old(ws.cells)
        invariant ws.name == old(ws.name) && ws.validations == old(ws.validations)
      {
        var more := StackOne(fs, offset, i, dropdowns, numValues, old(ws.controls));
        if more.Err? {
          return Err(more.error);
        }
        ControlsOfAppend(dropdowns, more.value[i]);
        dropdowns := more.value;
        TotalHeightStep(fs, i);
        numValues := numValues + |fs[i].values|;
        i := i + 1;
      }
      return Ok(dropdowns);
    }

    /**
     * One pass of the layout loop: the list box of filter i goes just below
     * the i boxes already stacked, which stay as they were. `base` is the
     * sheet's controls before the loop began.
     */
    method StackOne(fs: seq<Filter>, offset: int, i: nat, dropdowns: seq<ListBoxEventHandler>, numValues: int, ghost base: seq<ListBox>)
      returns (r: Result<seq<ListBoxEventHandler>, ExhibitError>)
      requires ws != null && i < |fs| && |dropdowns| == i && i <= FirstEmpty(fs)
      requires numValues == offset + TotalHeight(fs[..i])
      requires forall k :: 0 <= k < i ==> Bound(dropdowns[k], fs[k], PlacementOf(fs, offset, k))
      requires ws.controls == base + ControlsOf(dropdowns)
      modifies ws
      ensures ws.name == old(ws.name) && ws.validations == old(ws.validations) && ws.cells == old(ws.cells)
      ensures r.Ok? <==> |fs[i].values| >= 1
      ensures r.Err? ==>
        && r.error == LayoutFailed(EmptyValues(fs[i].segment))
        && |base| <= |ws.controls| && ws.controls[..|base|] == base
        && StackFailed(ws.controls[|base|..], fs, offset)
      ensures r.Ok? ==>
        && |r.value| == i + 1 && r.value == dropdowns + [r.value[i]]
        && ws.controls == old(ws.controls) + [r.value[i].control]
        && forall k :: 0 <= k <= i ==> Bound(r.value[k], fs[k], PlacementOf(fs, offset, k))
    {
      label before:
      var one := AddDropdown(fs[i], numValues + 1);
      TotalHeightStep(fs, i);
      assert PlacementOf(fs, offset, i) == Placement(numValues + 1, 1, |fs[i].values|);
      forall k | 0 <= k < i
        ensures Bound(dropdowns[k], fs[k], PlacementOf(fs, offset, k))
      {
        assert old@before(Bound(dropdowns[k], fs[k], PlacementOf(fs, offset, k)));
        assert unchanged@before(dropdowns[k], dropdowns[k].control);
      }
      if one.Err? {
        assert FirstEmpty(fs) == i;
        PrefixOfPrefix(base, ControlsOf(dropdowns), ws.controls);
        ghost var added := ws.controls[|base|..];
        forall k | 0 <= k < i
          ensures added[k] == dropdowns[k].control
        {
          assert added[k] == old(ws.controls)[|base| + k];
        }
        return Err(one.error);
      }
      r := Ok(dropdowns + [one.value]);
    }

    /**
     * Sizes column 1 with a probe text in A1, which is then cleared, and
     * stacks one list box per filter in column 1 from row `offset + 1`, each
     * one row per value, listing the values with the first one selected.
     */
    method AddDropdowns(fs: seq<Filter>, offset: int) returns (r: Result<seq<ListBoxEventHandler>, ExhibitError>)
      requires ws != null
      modifies ws
      ensures ws.name == old(ws.name) && ws.validations == old(ws.validations)
      ensures r.Ok? <==> AllValues(fs) != [] && FirstEmpty(fs) == |fs|
      ensures AllValues(fs) == [] ==>
        (r == Err(LayoutFailed(EmptyProbe)) && ws.cells == old(ws.cells) && ws.controls == old(ws.controls))
      ensures AllValues(fs) != [] ==> ws.cells == old(ws.cells) - {Cell(1, 1)}
      ensures r.Ok? ==>
        && PlacedAs(r.value, fs, offset)
        && ws.controls == old(ws.controls) + ControlsOf(r.value)
      ensures r.Err? && AllValues(fs) != [] ==>
        && FirstEmpty(fs) < |fs|
        && r.error == LayoutFailed(EmptyValues(fs[FirstEmpty(fs)].segment))
        && |old(ws.controls)| <= |ws.controls| && ws.controls[..|old(ws.controls)|] == old(ws.controls)
        && StackFailed(ws.controls[|old(ws.controls)|..], fs, offset)
    {
      var probe := ProbeText(fs);
      if probe.Err? {
        return Err(LayoutFailed(probe.error));
      }
      ws.cells := ws.cells[Cell(1, 1) := Text(probe.value)];
      ws.cells := ws.cells - {Cell(1, 1)};
      r := StackDropdowns(fs, offset);
    }

    /**
     * Looks up the cross-section the controls select and writes it: origin
     * labels, development labels and the matrix, missing cells as "=NA()".
     * An absent key writes nothing.
     */
    method RefreshData() returns (outcome: Outcome<ExhibitError>)
      requires Valid() && ws != null && amountsFilter != null
      modifies ws, this`refreshes
      ensures refreshes == old(refreshes) + 1
      ensures ws.name == old(ws.name) && ws.validations == old(ws.validations) && ws.controls == old(ws.controls)
      ensures outcome == RefreshOutcome(old(CurrentSlice()))
      ensures ws.cells == AfterRefresh(old(ws.cells), data, old(CurrentSlice()))
    {
      var key := SelectionKey(ControlValues(indexFilters), amountsFilter.control.value);
      var tri := Loc(data, key);
      assert tri == CurrentSlice();
      refreshes := refreshes + 1;
      if tri.None? {
        return Fail(SelectionNotFound);
      }
      ghost var before := ws.cells;
      ws.cells := ws.cells + OriginHeader(data.origin);
      ws.cells := ws.cells + DevelopmentHeader(data.development);
      ws.cells := ws.cells + Body(tri.value);
      UnionOfThree(before, OriginHeader(data.origin), DevelopmentHeader(data.development), Body(tri.value));
      return Pass;
    }
  }
}
