/**
 * The spreadsheet host, reduced to what the exhibits read and write:
 * worksheets as maps from cells to values, data-validation rules attached to
 * cells, and list-box controls whose positions are measured in rows.
 */
module Host {
  import opened Wrappers

  /** A cell by 1-based row and column number. */
  datatype Cell = Cell(row: int, column: int)

  /** An opaque stand-in for one numeric amount of the dataset. */
  datatype Amount = Amount(id: nat)

  datatype CellValue =
    | Text(text: string)          // a string; "=NA()" is read by the host as a formula
    | Whole(n: int)               // an integer label
    | Measured(amount: Amount)    // an amount of the dataset

  /** A list-type data-validation rule on one cell. */
  datatype Validation = Validation(
    formula: string,
    inputTitle: string,
    inputMessage: string,
    errorTitle: string,
    errorMessage: string,
    inCellDropdown: bool,
    showInput: bool,
    showError: bool,
    ignoreBlank: bool)

  /** A list-box control hosted on a worksheet; positions and sizes in row units. */
  class ListBox {
    const progId: string
    var top: int
    var column: int
    var height: int
    var moveAndSize: bool
    var fontBold: bool
    var list: seq<string>
    var value: Option<string>
    var name: Option<string>

    /** A fresh control as the host creates it: empty, unselected, host-named. */
    constructor (progId: string)
      ensures this.progId == progId && list == [] && value == None && name == None
      ensures !moveAndSize && !fontBold
    {
      this.progId := progId;
      list := [];
      value := None;
      name := None;
      moveAndSize := false;
      fontBold := false;
    }
  }

  class Worksheet {
    var name: string
    var cells: map<Cell, CellValue>
    var validations: map<Cell, Validation>
    var controls: seq<ListBox>

    /** A new, empty worksheet. */
    constructor ()
      ensures cells == map[] && validations == map[] && controls == []
    {
      name := "";
      cells := map[];
      validations := map[];
      controls := [];
    }
  }

  class Workbook {
    var sheets: seq<Worksheet>
  }

  /** The index of the first sheet named `name`, if any. */
  function FindSheet(sheets: seq<Worksheet>, name: string): (r: Option<nat>)
    reads set s | s in sheets
    ensures r.Some? ==> r.value < |sheets| && sheets[r.value].name == name
    ensures r.Some? ==> forall i :: 0 <= i < r.value ==> sheets[i].name != name
    ensures r.None? ==> forall i :: 0 <= i < |sheets| ==> sheets[i].name != name
  {
    if sheets == [] then None
    else if sheets[0].name == name then Some(0)
    else match FindSheet(sheets[1..], name)
      case None => None
      case Some(i) => Some(i + 1)
  }
}
