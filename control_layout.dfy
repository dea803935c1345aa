/**
 * The placement rule shared by the exhibit's list boxes
 * (exhibits/loss_development/loss_development.py) and the stand-alone list-box
 * component (exhibits/loss_development/components/controls.py): controls are
 * stacked in column 1, each one row per value it lists, starting one row below
 * a row offset.
 */
module ControlLayout {
  import opened Wrappers
  import opened Host

  /** The programmatic id of the list-box control both exhibits create. */
  const ListBoxProgId: string := "Forms.ListBox.1"

  /** The narrowest probe text used to size column 1. */
  const ProbeMinWidth: nat := 30

  /** One entry of a filter dictionary: a segment name and its values in order. */
  datatype Filter = Filter(segment: string, values: seq<string>)

  /** Where a control sits: its top row, its column and its height in rows. */
  datatype Placement = Placement(top: int, column: int, height: int)

  datatype LayoutError = EmptyProbe | EmptyValues(segment: string)

  /** The name given to the control of a segment. */
  function ControlName(segment: string): string
  {
    segment + "_dropdown"
  }

  /** The control `b` shows filter `f` at placement `p`, with its first value selected. */
  predicate Shows(b: ListBox, f: Filter, p: Placement)
    reads b
  {
    && b.progId == ListBoxProgId
    && b.top == p.top && b.column == p.column && b.height == p.height
    && b.moveAndSize && b.fontBold
    && b.list == f.values
    && |f.values| >= 1 && b.value == Some(f.values[0])
    && b.name == Some(ControlName(f.segment))
  }

  /**
   * The control `b` was placed for filter `f` at `p` and given its list, but
   * the step that selects the first value failed: it has no value and no name.
   */
  predicate FailedAt(b: ListBox, f: Filter, p: Placement)
    reads b
  {
    && b.progId == ListBoxProgId
    && b.top == p.top && b.column == p.column && b.height == p.height
    && b.moveAndSize && b.fontBold
    && b.list == f.values
    && b.value == None && b.name == None
  }

  // ---------------------------------------------------------------------
  // Stacking
  // ---------------------------------------------------------------------

  /** The number of rows the controls of `fs` occupy together. */
  function TotalHeight(fs: seq<Filter>): nat
  {
    if fs == [] then 0 else TotalHeight(fs[..|fs| - 1]) + |fs[|fs| - 1].values|
  }

  /** The top row of the k-th control: one below the offset plus all earlier heights. */
  function TopRow(fs: seq<Filter>, offset: int, k: nat): int
    requires k <= |fs|
  {
    offset + TotalHeight(fs[..k]) + 1
  }

  /** The placement of the k-th control: column 1, one row per value. */
  function PlacementOf(fs: seq<Filter>, offset: int, k: nat): Placement
    requires k < |fs|
  {
    Placement(TopRow(fs, offset, k), 1, |fs[k].values|)
  }

  /** The placement of every control, in the order of the filters. */
  function Layout(fs: seq<Filter>, offset: int): seq<Placement>
  {
    seq(|fs|, k requires 0 <= k < |fs| => PlacementOf(fs, offset, k))
  }

  lemma TotalHeightStep(fs: seq<Filter>, k: nat)
    requires k < |fs|
    ensures TotalHeight(fs[..k + 1]) == TotalHeight(fs[..k]) + |fs[k].values|
  {
    assert fs[..k + 1][..k] == fs[..k];
  }

  /**
   * The first control starts one row below the offset, each control ends
   * where the next begins, and every control is one row per value in column 1.
   */
  lemma LayoutStacks(fs: seq<Filter>, offset: int, k: nat)
    requires k < |fs|
    ensures |Layout(fs, offset)| == |fs|
    ensures Layout(fs, offset)[0].top == offset + 1
    ensures Layout(fs, offset)[k].column == 1 && Layout(fs, offset)[k].height == |fs[k].values|
    ensures k + 1 < |fs| ==> Layout(fs, offset)[k].top + Layout(fs, offset)[k].height == Layout(fs, offset)[k + 1].top
    ensures k + 1 == |fs| ==> Layout(fs, offset)[k].top + Layout(fs, offset)[k].height == offset + TotalHeight(fs) + 1
  {
    TotalHeightStep(fs, k);
    assert fs[..0] == [];
    assert fs[..|fs|] == fs;
  }

  /** Earlier controls end at or above the top of later ones: no two overlap. */
  lemma {:induction false} LayoutDisjoint(fs: seq<Filter>, offset: int, i: nat, j: nat)
    requires i < j < |fs|
    ensures Layout(fs, offset)[i].top + Layout(fs, offset)[i].height <= Layout(fs, offset)[j].top
  {
    LayoutStacks(fs, offset, j - 1);
    if i < j - 1 {
      LayoutDisjoint(fs, offset, i, j - 1);
    }
  }

  /** Filters that all hold `n` values take `n` rows each. */
  lemma {:induction false} TotalHeightUniform(fs: seq<Filter>, n: nat)
    requires forall k :: 0 <= k < |fs| ==> |fs[k].values| == n
    ensures TotalHeight(fs) == |fs| * n
  {
    if fs != [] {
      TotalHeightUniform(fs[..|fs| - 1], n);
    }
  }

  /** The height of two stacks together is the sum of their heights. */
  lemma {:induction false} TotalHeightAppend(fs: seq<Filter>, gs: seq<Filter>)
    ensures TotalHeight(fs + gs) == TotalHeight(fs) + TotalHeight(gs)
  {
    if gs == [] {
      assert fs + gs == fs;
    } else {
      var n := |gs| - 1;
      TotalHeightAppend(fs, gs[..n]);
      assert (fs + gs)[..|fs + gs| - 1] == fs + gs[..n];
    }
  }

  /**
   * A group of controls laid out with the total height of a stack as its
   * offset continues that stack: it is placed as if its filters were the
   * stack's next entries.
   */
  lemma LayoutAppend(fs: seq<Filter>, gs: seq<Filter>, offset: int)
    ensures Layout(fs, offset) + Layout(gs, offset + TotalHeight(fs)) == Layout(fs + gs, offset)
  {
    var whole := fs + gs;
    forall k | 0 <= k < |fs|
      ensures Layout(fs, offset)[k] == Layout(whole, offset)[k]
    {
      assert whole[..k] == fs[..k];
    }
    forall j | |fs| <= j < |whole|
      ensures Layout(gs, offset + TotalHeight(fs))[j - |fs|] == Layout(whole, offset)[j]
    {
      assert whole[..j] == fs + gs[..j - |fs|];
      TotalHeightAppend(fs, gs[..j - |fs|]);
    }
  }

  // ---------------------------------------------------------------------
  // The first filter without values
  // ---------------------------------------------------------------------

  /** The index of the first filter with no values, or |fs| when every filter has one. */
  function FirstEmpty(fs: seq<Filter>): (k: nat)
    ensures k <= |fs|
    ensures k < |fs| ==> fs[k].values == []
    ensures forall i :: 0 <= i < k ==> fs[i].values != []
  {
    if fs == [] then 0 else if fs[0].values == [] then 0 else 1 + FirstEmpty(fs[1..])
  }

  /**
   * The controls `cs`, added by a layout loop that stopped at the first filter
   * without values: one per filter up to and including that one, the earlier
   * ones showing their filters where the layout puts them, the last one
   * placed and listed but without value or name.
   */
  predicate StackFailed(cs: seq<ListBox>, fs: seq<Filter>, offset: int)
    reads cs
  {
    var e := FirstEmpty(fs);
    && e < |fs| && |cs| == e + 1
    && (forall k :: 0 <= k < e ==> Shows(cs[k], fs[k], PlacementOf(fs, offset, k)))
    && FailedAt(cs[e], fs[e], PlacementOf(fs, offset, e))
  }

  // ---------------------------------------------------------------------
  // Width probe for column 1
  // ---------------------------------------------------------------------

  /** Every value of every filter, in order. */
  function AllValues(fs: seq<Filter>): seq<string>
  {
    if fs == [] then [] else AllValues(fs[..|fs| - 1]) + fs[|fs| - 1].values
  }

  lemma {:induction false} AllValuesHolds(fs: seq<Filter>, k: nat, i: nat)
    requires k < |fs| && i < |fs[k].values|
    ensures fs[k].values[i] in AllValues(fs)
  {
    if k < |fs| - 1 {
      AllValuesHolds(fs[..|fs| - 1], k, i);
    }
  }

  /** Every value the width probe measures is a value of some filter. */
  lemma {:induction false} AllValuesFrom(fs: seq<Filter>, j: nat)
    requires j < |AllValues(fs)|
    ensures exists k, i :: 0 <= k < |fs| && 0 <= i < |fs[k].values| && fs[k].values[i] == AllValues(fs)[j]
  {
    var n := |fs| - 1;
    var front := AllValues(fs[..n]);
    assert AllValues(fs) == front + fs[n].values;
    if j < |front| {
      AllValuesFrom(fs[..n], j);
      var k, i :| 0 <= k < |fs[..n]| && 0 <= i < |fs[..n][k].values| && fs[..n][k].values[i] == front[j];
      assert fs[k].values[i] == AllValues(fs)[j];
    } else {
      assert fs[n].values[j - |front|] == AllValues(fs)[j];
    }
  }

  lemma {:induction false} AllValuesLength(fs: seq<Filter>)
    ensures |AllValues(fs)| == TotalHeight(fs)
  {
    if fs != [] {
      AllValuesLength(fs[..|fs| - 1]);
    }
  }

  /** The length of the longest string of `items` (0 when there is none). */
  function Longest(items: seq<string>): (n: nat)
    ensures forall i :: 0 <= i < |items| ==> |items[i]| <= n
    ensures items != [] ==> exists i :: 0 <= i < |items| && |items[i]| == n
  {
    if items == [] then 0
    else
      var rest := Longest(items[1..]);
      if |items[0]| >= rest then |items[0]| else rest
  }

  function Max(a: nat, b: nat): nat
  {
    if a >= b then a else b
  }

  function Repeat(c: char, n: nat): (s: string)
    ensures |s| == n && forall i :: 0 <= i < n ==> s[i] == c
  {
    seq(n, _ => c)
  }

  /**
   * The text written into A1 to size column 1, taken over the filters'
   * values: 'x's, as many as the longest value has characters, but at
   * least 30.
   * Fails, as `max` of an empty list does, when there is no value at all.
   */
  function ProbeText(fs: seq<Filter>): (r: Result<string, LayoutError>)
    ensures r.Ok? <==> AllValues(fs) != []
    ensures r.Ok? ==> |r.value| >= ProbeMinWidth && forall i :: 0 <= i < |r.value| ==> r.value[i] == 'x'
    ensures r.Ok? ==> forall k, i :: 0 <= k < |fs| && 0 <= i < |fs[k].values| ==> |fs[k].values[i]| <= |r.value|
    ensures r.Ok? ==>
      || |r.value| == ProbeMinWidth
      || exists k, i :: 0 <= k < |fs| && 0 <= i < |fs[k].values| && |fs[k].values[i]| == |r.value|
  {
    var items := AllValues(fs);
    if items == [] then Err(EmptyProbe)
    else
      assert Longest(items) <= ProbeMinWidth ||
        exists k, i :: 0 <= k < |fs| && 0 <= i < |fs[k].values| && |fs[k].values[i]| == Longest(items) by {
        var j :| 0 <= j < |items| && |items[j]| == Longest(items);
        AllValuesFrom(fs, j);
      }
      assert forall k, i :: 0 <= k < |fs| && 0 <= i < |fs[k].values| ==> |fs[k].values[i]| <= Longest(items) by {
        forall k, i | 0 <= k < |fs| && 0 <= i < |fs[k].values| ensures |fs[k].values[i]| <= Longest(items) {
          AllValuesHolds(fs, k, i);
        }
      }
      Ok(Repeat('x', Max(ProbeMinWidth, Longest(items))))
  }

  /** The single characters of the segment names, which is what iterating the dictionary yields. */
  function NameCharacters(fs: seq<Filter>): (items: seq<string>)
    ensures forall i :: 0 <= i < |items| ==> |items[i]| == 1
  {
    if fs == [] then []
    else NameCharacters(fs[..|fs| - 1]) + seq(|fs[|fs| - 1].segment|, i requires 0 <= i < |fs[|fs| - 1].segment| => [fs[|fs| - 1].segment[i]])
  }

  /** The segment names have no character between them exactly when every name is empty. */
  lemma {:induction false} NameCharactersEmpty(fs: seq<Filter>)
    ensures NameCharacters(fs) == [] <==> forall k :: 0 <= k < |fs| ==> fs[k].segment == ""
  {
    if fs != [] {
      var n := |fs| - 1;
      NameCharactersEmpty(fs[..n]);
      assert forall k :: 0 <= k < n ==> fs[..n][k] == fs[k];
    }
  }

  /** The probe as the source computes it, over the characters of the segment names. */
  function ProbeTextAsWritten(fs: seq<Filter>): (r: Result<string, LayoutError>)
    ensures r.Ok? <==> exists k :: 0 <= k < |fs| && fs[k].segment != ""
    ensures r.Ok? ==> |r.value| == ProbeMinWidth
  {
    NameCharactersEmpty(fs);
    var items := NameCharacters(fs);
    if items == [] then Err(EmptyProbe)
    else Ok(Repeat('x', Max(ProbeMinWidth, Longest(items))))
  }

  /** A value longer than 30 characters is wider than the probe as written, but not than the intended one. */
  lemma ProbeAsWrittenIgnoresValues()
    ensures var fs := [Filter("Line", [Repeat('v', 31)])];
      && ProbeTextAsWritten(fs).Ok? && |ProbeTextAsWritten(fs).value| < |fs[0].values[0]|
      && ProbeText(fs).Ok? && |fs[0].values[0]| <= |ProbeText(fs).value|
  {
    var fs := [Filter("Line", [Repeat('v', 31)])];
    assert fs[..0] == [];
    assert NameCharacters(fs) != [];
    assert AllValues(fs) == [Repeat('v', 31)];
  }
}
