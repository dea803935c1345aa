# Loss-development exhibit engine, modelled in Dafny

PythonXL drives a live Excel workbook from Python. This project models the
small engine behind its loss-development exhibit. The exhibit shows one
cross-section of a loss triangle on a worksheet named `LossDevelopment`.
List-box controls choose the cross-section: one control per index column,
plus an "Amount" control for the measure. A change to any control redraws
the worksheet.

The model covers five parts of the repository:

- **Range addresses** (`excel/utilities.py`, module `RangeAddress`).
  - `get_range_ref_for_shape` builds an A1-style range string from a shape and a first corner.
  - Bijective base-26 column letters ("A" = 1 … "ZZZ" = 18278) stand in for openpyxl's
    `column_index_from_string` and `get_column_letter`.
  - Decimal row numbers, and a parser that reads a range string back into its two corners.
- **The exhibit** (`exhibits/loss_development/loss_development.py`, module `LossDevelopment`).
  - The exhibit is a class. Its fields are the data, the bound worksheet, the index filters,
    the amount filter and the ready flag, as in the source.
  - A ghost counter records how many refreshes have run.
  - The layout loop places one list box per filter. Each box's top row is the offset plus the
    heights of the boxes before it, plus one.
  - A refresh builds the lookup key from the controls' current values. It then writes the
    origin labels down from C3, the development labels across from D2, and the matrix from D3.
    Missing cells become `=NA()`.
- **The change-event gate** (`exhibits/loss_development/_events.py`, class
  `LossDevelopment.ListBoxEventHandler`). A change does nothing until the exhibit is ready.
  After that, each change causes exactly one refresh.
- **The stand-alone list-box component**
  (`exhibits/loss_development/components/controls.py`, module `Controls`). It uses the same
  placement rule for a single control.
- **The older validation-based exhibit** (`exhibits/loss_development.py`, module
  `LegacyExhibit`). It puts one list-type data-validation rule per index column in column 1.
  Each rule's formula is the column's labels joined by `", "`.

The host is reduced to plain values (module `Host`):

- A worksheet is a map from cells to values, plus a map of validation rules and a sequence of
  controls.
- A list box is an object whose position and height are counted in rows.
- A workbook is a sequence of worksheets.

The loss triangle (module `Triangles`) is reduced to:

- its index labels, measure columns, and origin and development axes;
- a map from a key (one label per index column, plus a measure) to a matrix of optional,
  opaque amounts.

Failures are values rather than exceptions:

- `Outcome` and `Result` carry every raising path the model keeps.
- Some raising paths are deliberately not kept; "## Left out" names each one. They are the
  unset `_ws` and the undefined `c` of the list-box component, its `super().__init__(exhibit)`
  call, the older exhibit's missing abstract property, and the as-written width probe failing
  when every segment name is empty.
- Examples: an empty value list reaching `values[0]`; `max` of an empty sequence; a key
  missing from the triangle; a column outside "A".."ZZZ".

## Model

| member | source | states |
|---|---|---|
| RangeAddress.ColumnIndexFromString | excel/utilities.py:18 | Succeeds exactly on one to three upper-case letters; the number it returns is in 1..18278 and encodes back to the same letters |
| RangeAddress.GetColumnLetter | excel/utilities.py:19 | Succeeds exactly for 1..18278; the letters it returns form a column name that decodes back to the index |
| RangeAddress.NumberOfLetters | excel/utilities.py:18-19 | Decoding the letters of a column number gives the number back |
| RangeAddress.LettersOfNumber | excel/utilities.py:18-19 | Encoding the number of a non-empty letter string gives the string back (bijective base 26) |
| RangeAddress.NumberBound | excel/utilities.py:18-19 | One, two and three letters reach at most columns 26, 702 and 18278 |
| RangeAddress.LettersLength | excel/utilities.py:18-19 | Columns up to 26, 702 and 18278 need at most one, two and three letters |
| RangeAddress.DecimalRoundTrip | excel/utilities.py:20 | A row number written in decimal reads back as the same number |
| RangeAddress.ParseIntOfDecimal | excel/utilities.py:20 | Any integer, negative ones included, formatted as Python does, parses back to itself |
| RangeAddress.ParseRangeText | excel/utilities.py:20 | A range string "<col><row>:<col><row>" parses back to exactly its two corners |
| RangeAddress.GetRangeRefForShape | excel/utilities.py:4-20 | Succeeds exactly when the first column is a valid name and the end column index is in 1..18278. The first corner echoes (first_col, first_row). The end column index is the first column's index plus num_cols. The end row is first_row + num_rows. The text is exactly the canonical rendering of those corners: column letters, the row in decimal without leading zeros, and a colon between them |
| RangeAddress.ShapeSpansOneExtra | excel/utilities.py:11-20 | The range spans num_rows + 1 rows and num_cols + 1 columns, one more each way than the shape |
| RangeAddress.ShapeEndMonotone | excel/utilities.py:19-20 | Each count moves only its own end coordinate, by exactly its change: more columns end further right and more rows end further down, each on its own |
| RangeAddress.ShapeCarriesPastZ | excel/utilities.py:19 | One column right of "Z" is "AA": (1, 1, 1, "Z") gives "Z1:AA2" |
| RangeAddress.ShapeOffByOne | excel/utilities.py:4-20 | A 3 x 2 shape at A5 is addressed as "A5:C8", which covers four rows and three columns |
| RangeAddress.ExactRangeRefForShape | excel/utilities.py:4-20 | The address as the docstring describes it. It succeeds exactly when both counts are positive and the end column fits. Its end corner is num_rows - 1 rows down and num_cols - 1 columns right |
| RangeAddress.ExactShapeSpans | excel/utilities.py:11-15 | The corrected address covers exactly num_rows rows and num_cols columns |
| RangeAddress.ExactShapeExample | excel/utilities.py:11-15 | The corrected address of a 3 x 2 shape at A5 is "A5:B7" |
| Host.FindSheet | exhibits/loss_development/loss_development.py:27-28 | Returns the index of the first sheet with the name, or none when no sheet has it |
| Host.ListBox.constructor | exhibits/loss_development/loss_development.py:53-55 | A control created from a ProgID starts with an empty list, no value and no name |
| Host.Worksheet.constructor | exhibits/loss_development/loss_development.py:30 | A newly added worksheet has no cells, rules or controls |
| ControlLayout.LayoutStacks | exhibits/loss_development/loss_development.py:51-58 | There is one placement per filter. The first starts at offset + 1. Every placement is in column 1 and as tall as its value list. Each ends where the next begins, and the last ends at offset + total height + 1 |
| ControlLayout.LayoutDisjoint | exhibits/loss_development/loss_development.py:51-58 | No two controls overlap: an earlier one ends at or above the top of every later one |
| ControlLayout.TotalHeightStep | exhibits/loss_development/loss_development.py:73 | The running height grows by the length of each value list in turn |
| ControlLayout.TotalHeightUniform | exhibits/loss_development/loss_development.py:32-35 | Filters with n values each stack to (number of filters) x n rows |
| ControlLayout.TotalHeightAppend | exhibits/loss_development/loss_development.py:73 | Two stacks placed one after the other take the sum of their heights |
| ControlLayout.LayoutAppend | exhibits/loss_development/loss_development.py:32-36 | Stacking a second group of filters at offset + height of the first group equals stacking both groups as one; the one-entry Amount dict is the case of a single filter |
| ControlLayout.FirstEmpty | exhibits/loss_development/loss_development.py:66-67 | The first filter whose value list is empty, at which the loop fails; every earlier filter has values |
| ControlLayout.AllValuesHolds | exhibits/loss_development/loss_development.py:43-45 | Every value of every filter is among the values the width probe measures |
| ControlLayout.AllValuesLength | exhibits/loss_development/loss_development.py:43-45 | The values the width probe measures are exactly as many as the rows the controls occupy |
| ControlLayout.ProbeText | exhibits/loss_development/loss_development.py:43-47 | The corrected probe. It fails exactly when there is no value at all. Otherwise it is all 'x' and no shorter than any value. Its length is 30 or the length of some value, so it is exactly the larger of 30 and the longest value |
| ControlLayout.ProbeTextAsWritten | exhibits/loss_development/loss_development.py:43-47 | The probe as written measures the characters of the filter names, so it succeeds exactly when some filter name has a character, and whenever it succeeds it is exactly 30 long |
| ControlLayout.ProbeAsWrittenIgnoresValues | exhibits/loss_development/loss_development.py:43-47 | A 31-character value is wider than the as-written probe but fits the corrected one |
| Triangles.Cumulative | exhibits/loss_development/loss_development.py:20-22 | The result is cumulative and keeps the index and the measures. Data that is already cumulative is kept unchanged, so the conversion happens at most once |
| Triangles.IncrToCum | exhibits/loss_development/loss_development.py:22 | The converted triangle is cumulative and keeps its index, measures and axes |
| Triangles.IndexHeightIsShapeProduct | exhibits/loss_development/loss_development.py:32-35 | The index controls together are prod(index.shape) rows tall, so the Amount control sits directly below them |
| Triangles.Loc | exhibits/loss_development/loss_development.py:77-80 | A cross-section exists exactly when the key is complete and present. It is an origin x development matrix |
| LossDevelopment.SelectionKey | exhibits/loss_development/loss_development.py:77-80 | The key exists exactly when every control has a value. Its labels are the index controls' values in control order, and its measure is the Amount control's value |
| LossDevelopment.SelectionKeyIsLocal | exhibits/loss_development/loss_development.py:77-80 | Changing one index control changes that label of the key and nothing else |
| LossDevelopment.OriginHeaderContents | exhibits/loss_development/loss_development.py:81-83 | The origin labels go down column C from row 3, one per origin, and nowhere else |
| LossDevelopment.DevelopmentHeaderContents | exhibits/loss_development/loss_development.py:84-86 | The development labels go across row 2 from column D, one per period, and nowhere else |
| LossDevelopment.BodyContents | exhibits/loss_development/loss_development.py:87-89 | The matrix fills exactly the block anchored at D3. A cell shows "=NA()" if and only if the amount is missing, and shows amount a if and only if a is present |
| LossDevelopment.SliceCellsDomain | exhibits/loss_development/loss_development.py:81-89 | A refresh writes the origin column, the development row and the matrix block, and no other cell |
| LossDevelopment.SliceCellsOrigin | exhibits/loss_development/loss_development.py:81-83 | Each origin label is written down column C from row 3, and no other block overwrites it |
| LossDevelopment.SliceCellsDevelopment | exhibits/loss_development/loss_development.py:84-86 | Each development label is written across row 2 from column D, and the matrix does not overwrite it |
| LossDevelopment.SliceCellsBody | exhibits/loss_development/loss_development.py:87-89 | Each amount of the selected matrix is written, rendered, at its own cell of the block anchored at D3 |
| LossDevelopment.RefreshIsIdempotent | exhibits/loss_development/loss_development.py:76-89 | A second refresh with the same selection, applied to the cells the first refresh left, leaves them as they were, whether or not the selection was found |
| LossDevelopment.BlockIsExactRange | exhibits/loss_development/loss_development.py:81-89 | Each written block is exactly the range the corrected address names |
| LossDevelopment.BlockOfShapeAsWritten | exhibits/loss_development/loss_development.py:81-89 | The address as written names one more row and one more column than the block it receives |
| LossDevelopment.IndexDropdownsBuild | exhibits/loss_development/loss_development.py:32 | The index controls can all be built exactly when there is at least one index column and one index row |
| LossDevelopment.AmountDropdownBuilds | exhibits/loss_development/loss_development.py:33-36 | The Amount control can be built exactly when there is at least one measure column |
| LossDevelopment.ListBoxEventHandler.constructor | exhibits/loss_development/_events.py:5-6 | A new handler has no exhibit bound |
| LossDevelopment.ListBoxEventHandler.OnChange | exhibits/loss_development/_events.py:8-11 | With no exhibit bound, it fails. While the exhibit is not ready, nothing changes. Once it is ready, exactly one refresh runs, with that refresh's outcome and cells. The binding, ready flag, data, sheet and filters never change, nor do the sheet's name, rules and controls |
| LossDevelopment.LossDevelopmentExhibit.constructor | exhibits/loss_development/loss_development.py:19-24 | The data is held in cumulative form. No sheet or filter is bound, the exhibit is not ready, and no refresh has run |
| LossDevelopment.LossDevelopmentExhibit.InitialSelection | exhibits/loss_development/loss_development.py:32-37 | Freshly placed controls select the first index row and the first measure |
| LossDevelopment.LossDevelopmentExhibit.AddDropdown | exhibits/loss_development/loss_development.py:53-69 | One pass of the layout loop appends exactly one control to the sheet. The pass succeeds exactly when the values are non-empty, and then the control is bound to the exhibit and shows the filter at the given top row. On failure the old controls stay in place and the new control is placed and listed but has no value and no name |
| LossDevelopment.LossDevelopmentExhibit.StackDropdowns | exhibits/loss_development/loss_development.py:51-74 | It returns one control per filter, in order, each bound and placed as the stacking rule says, and appends exactly those controls. On an empty value list it stops at the first such filter. The sheet's old controls stay in place, followed by one control per earlier filter, each showing its filter where the layout puts it, and then the failing filter's control, placed and listed but with no value and no name |
| LossDevelopment.LossDevelopmentExhibit.StackOne | exhibits/loss_development/loss_development.py:52-73 | The body of StackDropdowns' loop, split out for its proof: the next filter's list box goes just below the boxes already stacked, at the position Layout gives it, and the earlier boxes keep theirs. It fails exactly when that filter has no values. The sheet's controls are then the old ones followed by the earlier boxes, still showing their filters, and the failing box without value or name |
| LossDevelopment.LossDevelopmentExhibit.AddDropdowns | exhibits/loss_development/loss_development.py:41-74 | Without any value it fails and changes nothing. Otherwise A1 ends up cleared, then everything StackDropdowns states holds |
| LossDevelopment.LossDevelopmentExhibit.AddIndexFilters | exhibits/loss_development/loss_development.py:32 | The index controls are stacked from row 1 and kept as the index filters. This succeeds exactly when there is an index column and an index row |
| LossDevelopment.LossDevelopmentExhibit.AddAmountFilter | exhibits/loss_development/loss_development.py:33-36 | The Amount control is placed at offset prod(index.shape) and kept as the amount filter. The index controls stay as they were |
| LossDevelopment.LossDevelopmentExhibit.AddFilters | exhibits/loss_development/loss_development.py:32-36 | Both groups are placed, and the sheet's controls are its old ones plus the index controls plus the Amount control. This succeeds exactly when there are index columns, index rows and measures |
| LossDevelopment.LossDevelopmentExhibit.BindSheet | exhibits/loss_development/loss_development.py:27-31 | The exhibit binds to the first sheet named LossDevelopment. If there is none, it binds to a new sheet appended to the workbook and given that name. No existing sheet changes |
| LossDevelopment.LossDevelopmentExhibit.ShowInitialSelection | exhibits/loss_development/loss_development.py:37 | The first refresh succeeds exactly when the first key is present. It writes that cross-section and keeps the controls in place |
| LossDevelopment.LossDevelopmentExhibit.LoadInto | exhibits/loss_development/loss_development.py:26-39 | It succeeds exactly when there is an index column, every control has values and the first key is present. It becomes ready only then, and a failure leaves the ready flag as it was. On success the controls are stacked as the layout says, and the sheet holds its old cells (A1 cleared) plus the first cross-section. The sheet keeps its validation rules, and every other sheet of the workbook stays as it was |
| LossDevelopment.LossDevelopmentExhibit.RefreshData | exhibits/loss_development/loss_development.py:76-89 | It counts one refresh. It fails when the selected key is absent and writes nothing. Otherwise it writes exactly that cross-section's headers and matrix over the old cells. Controls, rules and name are unchanged |
| Controls.ControlListBox.constructor | exhibits/loss_development/components/controls.py:7-11 | Segment and values are stored unchanged and no control is placed |
| Controls.ControlListBox.AddToWorksheet | exhibits/loss_development/components/controls.py:13-22 | Appends one new "Forms.ListBox.1" control to the sheet. With values, it sits at row offset + 1 in column 1, is len(values) rows tall, lists the values, selects the first and is named `<segment>_dropdown`. With no values, it fails after the list is set, leaving no value and no name |
| LegacyExhibit.SplitJoin | exhibits/loss_development.py:40 | Joining non-empty, comma-free labels with ", " and splitting the formula gives back the labels in order |
| LegacyExhibit.ValidationsForAt | exhibits/loss_development.py:35-36 | The i-th column's rule, and only it, sits at row i + 1 of column 1 |
| LegacyExhibit.InitialValuesForAt | exhibits/loss_development.py:35-36 | The i-th column's first label, and only it, sits at row i + 1 of column 1 |
| LegacyExhibit.ValidationOffersColumn | exhibits/loss_development.py:38-51 | A column's rule lists exactly that column's labels, and the cell's initial value is the first option. Both titles are the column name. The error message is "Invalid value for <col>. Options are [<formula>]". Blanks are rejected and the in-cell list is shown |
| LegacyExhibit.LossDevelopmentExhibit.constructor | exhibits/loss_development.py:15-19 | The data is held in cumulative form, and the kept index lists are derived from it |
| LegacyExhibit.LossDevelopmentExhibit.AddSegmentDropdowns | exhibits/loss_development.py:34-51 | Succeeds exactly when every index column has a label. It then adds every column's rule and first label. It fails at the first empty column, after that column's rule is in place |
| LegacyExhibit.PlaceRules | exhibits/loss_development.py:35-51 | The loop adds the rules of the filters up to and including the failing one, and the first values of the filters before it. If no filter fails, it adds them all |

## Left out

- COM plumbing is not modelled: dispatch, `DispatchWithEvents`, `EnsureDispatch` and the
  event sink. The handler is bound to its control directly.
- Positions and sizes in points are not modelled. The host's `Left`/`Top`/`Width`/`Height`
  are counted in rows and columns.
- Column widths are not modelled. `AutoFit` has no counterpart, so the probe's only effect on
  the sheet is writing A1 and clearing it again.
- Where `Worksheets.Add` inserts a new sheet is host behaviour. The model appends it.
- Triangles.IncrToCum: does not model the cumulative arithmetic of the triangle library. It
  only records that the data is now cumulative. Amounts are opaque tokens, with no
  floating-point values.
- LossDevelopment.LossDevelopmentExhibit.RefreshData: writes the three blocks cell by cell at
  their positions. It does not write the larger ranges named by the as-written address, nor
  the values the host puts into their extra row and column.
- LossDevelopment.LossDevelopmentExhibit.RefreshData: the development header's range is sized
  with `len(tri.origin)` (exhibits/loss_development/loss_development.py:85). That is right
  only for a square triangle. The model writes one label per development period.
- LossDevelopment.ListBoxEventHandler.OnChange: ignores the host's event arguments, as the
  source does. Re-entrant events and the host's event order are not modelled; each change is
  one atomic step.
- LossDevelopment.LossDevelopmentExhibit.AddDropdowns: uses the corrected width probe (see
  Findings). The as-written probe is modelled separately.
- LossDevelopment.LossDevelopmentExhibit.AddIndexFilters, AddAmountFilter, AddFilters and
  LoadInto: their failure conditions, and the number of controls added before a failure,
  follow the corrected probe. When every filter's value list is empty (for example
  `[Filter("Line", [])]`, or a triangle without measure columns), the model fails at the
  probe and adds no control. The source's probe measures only the segment names, so it
  passes, adds one list box (exhibits/loss_development/loss_development.py:54) and then fails
  at `values[0]` (:67). When every segment name is empty, the source fails at the probe
  (:43-46), while the model goes on as long as the filters have values.
- Unset `_index_filters` is modelled as an empty sequence, not None.
- Column names: the openpyxl helpers also accept lower-case names. The model accepts only
  upper-case "A".."ZZZ".
- The older exhibit's `load_into` (exhibits/loss_development.py:21-32) is not modelled. It binds
  the sheet and calls `add_segment_dropdowns` (:27), which writes each column's rule and first
  label; that step is modelled as AddSegmentDropdowns. It then pauses at a debugger
  `breakpoint()` (:28), a debug artefact. When the debugger continues, it writes the first
  cross-section from A5 through the as-written address (:29-31); that write is not modelled.
- The `print` at exhibits/loss_development/loss_development.py:63 is a debug artefact and is
  not modelled.
- Controls.ControlListBox.AddToWorksheet: takes the worksheet at construction. In the source,
  `self._ws` is never assigned (exhibits/loss_development/components/controls.py:14).
- Controls.ControlListBox.AddToWorksheet: sets the control to move and size with its cells.
  The source names `c.xlMoveAndSize` (controls.py:18), but `c` is never imported in that file,
  so the line would fail with a NameError.
- Controls.ControlListBox.constructor: takes the worksheet in place of the exhibit. The source
  calls `super().__init__(exhibit)` (controls.py:8), but BaseComponent
  (exhibits/base.py:18-21) defines no `__init__` taking an exhibit. That call would raise a
  TypeError.
- LegacyExhibit.LossDevelopmentExhibit.constructor: the older exhibit defines a `controls`
  property (exhibits/loss_development.py:9-11). It does not define the abstract `components`
  that BaseExhibit requires (exhibits/base.py:12-15), so Python refuses to instantiate the
  class. The model constructs it as intended.
- LegacyExhibit.SplitJoin: the round trip needs labels without commas. A label that contains
  a comma is offered by the rule as several options.
- LegacyExhibit.ValidationOffersColumn: "lists exactly the column's labels" rests on an
  assumed host reading of a list formula. The model reads "a, b" as the options ["a", "b"]:
  it splits at each comma and drops the one blank that follows it. The source only writes the
  formula (exhibits/loss_development.py:40). How Excel trims the options of `Formula1` is host
  behaviour and is not part of this model.
- The file exhibits/base.py is context only, and the event catalogues under events/ and
  main.py are not part of this model.

## Findings

| source | as written | input that shows it | evidently intended | confidence | as-written member | corrected member |
|---|---|---|---|---|---|---|
| excel/utilities.py:19-20 | The end corner is `first_col + num_cols` and `first_row + num_rows` | `get_range_ref_for_shape(3, 2, first_row=5, first_col='A')` gives "A5:C8", which is 4 x 3 cells | The end corner is `num_cols - 1` columns right and `num_rows - 1` rows down, so a 3 x 2 shape at A5 is "A5:B7" | not executed | RangeAddress.GetRangeRefForShape, RangeAddress.ShapeOffByOne | RangeAddress.ExactRangeRefForShape, RangeAddress.ExactShapeSpans |
| exhibits/loss_development/loss_development.py:43-47 | Iterating the filter dict yields its keys, so the probe measures single characters of the segment names and is always 30 'x' | A filter whose value is 31 characters long gets a 30-character probe | The probe is as wide as the longest value, with a minimum of 30 | not executed | ControlLayout.ProbeTextAsWritten, ControlLayout.ProbeAsWrittenIgnoresValues | ControlLayout.ProbeText |
