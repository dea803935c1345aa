/**
 * The list-box component of the loss-development exhibit
 * (exhibits/loss_development/components/controls.py): one segment and its
 * values, placed on the exhibit's worksheet as a single list box.
 */
module Controls {
  import opened Wrappers
  import opened Host
  import opened ControlLayout

  class ControlListBox {
    /** The worksheet of the exhibit the component belongs to. */
    const ws: Worksheet
    const segment: string
    const values: seq<string>
    /** The list box, once placed. */
    var ole: ListBox?

    /** Keeps the segment and its values; nothing is placed yet. */
    constructor (ws: Worksheet, segment: string, values: seq<string>)
      ensures this.ws == ws && this.segment == segment && this.values == values
      ensures ole == null
    {
      this.ws := ws;
      this.segment := segment;
      this.values := values;
      ole := null;
    }

    /** The filter this component shows. */
    function AsFilter(): (f: Filter)
      ensures f.segment == segment && f.values == values
    {
      Filter(segment, values)
    }

    /**
     * Adds a list box to the worksheet with its top row at `offset + 1` in
     * column 1, one row per value, listing the values with the first one
     * selected and named after the segment; an empty value list fails once
     * the list has been set.
     */
    method AddToWorksheet(offset: int) returns (outcome: Outcome<LayoutError>)
      modifies this`ole, ws
      ensures ole != null && fresh(ole)
      ensures ws.name == old(ws.name) && ws.cells == old(ws.cells) && ws.validations == old(ws.validations)
      ensures ws.controls == old(ws.controls) + [ole]
      ensures outcome.Pass? <==> |values| >= 1
      ensures outcome.Pass? ==> Shows(ole, AsFilter(), PlacementOf([AsFilter()], offset, 0))
      ensures outcome.Fail? ==>
        && outcome.error == EmptyValues(segment)
        && ole.list == values && ole.value == None && ole.name == None
    {
      var box := new ListBox(ListBoxProgId);
      ws.controls := ws.controls + [box];
      ole := box;
      box.top, box.column := offset + 1, 1;
      box.height := |values|;
      box.moveAndSize := true;
      box.fontBold := true;
      box.list := values;
      if |values| == 0 {
        return Fail(EmptyValues(segment));
      }
      box.value := Some(values[0]);
      box.name := Some(ControlName(segment));
      assert [AsFilter()][..0] == [];
      return Pass;
    }
  }
}
